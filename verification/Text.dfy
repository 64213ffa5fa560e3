/** The C library text functions that src/SDP.cpp is built on: strtok_r, atoi and the %d of sprintf. */
module Text {

  predicate Clean(s: string, delims: set<char>) {
    forall i :: 0 <= i < |s| ==> s[i] !in delims
  }

  // ---------------------------------------------------------------- strtok_r

  function SkipDelims(s: string, delims: set<char>): (t: string)
    ensures |t| <= |s|
    ensures t != "" ==> t[0] !in delims
  {
    if s != "" && s[0] in delims then SkipDelims(s[1..], delims) else s
  }

  // The length of the run of non-delimiters s starts with.
  function TokenLength(s: string, delims: set<char>): (n: nat)
    ensures n <= |s| && Clean(s[..n], delims)
    ensures n < |s| ==> s[n] in delims
    ensures s != "" && s[0] !in delims ==> n > 0
  {
    if s == "" || s[0] in delims then 0
    else
      var n := 1 + TokenLength(s[1..], delims);
      assert s[..n] == [s[0]] + s[1..][..n - 1];
      n
  }

  // What repeated calls of strtok_r return until NULL.
  function Tokens(s: string, delims: set<char>): (tokens: seq<string>)
    ensures forall i :: 0 <= i < |tokens| ==> tokens[i] != ""
    decreases |s|
  {
    var t := SkipDelims(s, delims);
    if t == "" then []
    else
      var n := TokenLength(t, delims);
      [t[..n]] + Tokens(t[n..], delims)
  }

  lemma {:induction false} TokenLengthOf(a: string, rest: string, delims: set<char>)
    requires Clean(a, delims) && (rest == "" || rest[0] in delims)
    ensures TokenLength(a + rest, delims) == |a|
  {
    if a == "" {
      assert a + rest == rest;
    } else {
      assert (a + rest)[1..] == a[1..] + rest;
      TokenLengthOf(a[1..], rest, delims);
    }
  }

  // A clean token before a delimiter, or before the end, is the next one.
  lemma FirstToken(a: string, rest: string, delims: set<char>)
    requires a != "" && Clean(a, delims) && (rest == "" || rest[0] in delims)
    ensures Tokens(a + rest, delims) == [a] + Tokens(rest, delims)
  {
    var s := a + rest;
    TokenLengthOf(a, rest, delims);
    assert s[0] == a[0];
    assert SkipDelims(s, delims) == s;
    assert s[..|a|] == a && s[|a|..] == rest;
  }

  lemma DelimiterSkipped(c: char, rest: string, delims: set<char>)
    requires c in delims
    ensures SkipDelims([c] + rest, delims) == SkipDelims(rest, delims)
    ensures Tokens([c] + rest, delims) == Tokens(rest, delims)
  {
    assert ([c] + rest)[1..] == rest;
  }

  lemma NoTokens(delims: set<char>)
    ensures Tokens("", delims) == []
  {
  }

  // Words with one delimiter between them.
  lemma TwoTokens(a: string, c: char, rest: string, delims: set<char>)
    requires a != "" && Clean(a, delims) && c in delims
    ensures Tokens(a + [c] + rest, delims) == [a] + Tokens(rest, delims)
  {
    assert a + [c] + rest == a + ([c] + rest);
    FirstToken(a, [c] + rest, delims);
    DelimiterSkipped(c, rest, delims);
  }

  lemma OnlyToken(a: string, delims: set<char>)
    requires a != "" && Clean(a, delims)
    ensures Tokens(a, delims) == [a]
  {
    assert a + "" == a;
    FirstToken(a, "", delims);
    NoTokens(delims);
  }

  // Words with one space after each but the last, as a format of %s and spaces prints them.
  function Words(ws: seq<string>): string {
    if ws == [] then ""
    else if |ws| == 1 then ws[0]
    else ws[0] + [' '] + Words(ws[1..])
  }

  function NonEmpty(ws: seq<string>): seq<string> {
    if ws == [] then [] else (if ws[0] == "" then [] else [ws[0]]) + NonEmpty(ws[1..])
  }

  // Splitting at the spaces finds every word but the empty ones.
  lemma {:induction false} TokensOfWords(ws: seq<string>)
    requires forall i :: 0 <= i < |ws| ==> Clean(ws[i], {' '})
    ensures Tokens(Words(ws), {' '}) == NonEmpty(ws)
  {
    if ws == [] {
    } else if |ws| == 1 {
      if ws[0] != "" {
        OnlyToken(ws[0], {' '});
      }
    } else {
      TokensOfWords(ws[1..]);
      if ws[0] == "" {
        DelimiterSkipped(' ', Words(ws[1..]), {' '});
        assert "" + [' '] == [' '];
      } else {
        TwoTokens(ws[0], ' ', Words(ws[1..]), {' '});
      }
    }
  }

  lemma {:induction false} WordsAreClean(ws: seq<string>, delims: set<char>)
    requires ' ' !in delims && forall i :: 0 <= i < |ws| ==> Clean(ws[i], delims)
    ensures Clean(Words(ws), delims)
  {
    if |ws| > 1 {
      WordsAreClean(ws[1..], delims);
    }
  }

  // Printing one word more.
  lemma {:induction false} WordsAppend(ws: seq<string>, w: string)
    requires ws != []
    ensures Words(ws + [w]) == Words(ws) + " " + w
  {
    if |ws| == 1 {
      assert (ws + [w])[1..] == [w];
    } else {
      assert (ws + [w])[1..] == ws[1..] + [w];
      WordsAppend(ws[1..], w);
    }
  }

  // ---------------------------------------------------------------- decimal numbers

  predicate IsDigit(c: char) { '0' <= c <= '9' }

  function Digit(d: int): (c: char)
    requires 0 <= d <= 9
    ensures IsDigit(c) && c as int - '0' as int == d
  {
    (d + '0' as int) as char
  }

  function Digits(n: nat): (s: string)
    ensures s != "" && forall i :: 0 <= i < |s| ==> IsDigit(s[i])
  {
    if n < 10 then [Digit(n)] else Digits(n / 10) + [Digit(n % 10)]
  }

  // %d
  function Int(n: int): (s: string)
    ensures s != "" && (forall i :: 0 <= i < |s| ==> IsDigit(s[i]) || s[i] == '-')
    ensures IsDigit(s[|s| - 1])
  {
    if n < 0 then "-" + Digits(-n) else Digits(n)
  }

  // The digits a string starts with, read on from value.
  function ReadDigits(s: string, value: nat): nat {
    if s == "" || !IsDigit(s[0]) then value
    else ReadDigits(s[1..], 10 * value + (s[0] as int - '0' as int))
  }

  predicate IsSpace(c: char) { c == ' ' || '\t' <= c <= '\r' }

  // atoi: white space, a sign, digits; zero when there are none.
  function Atoi(s: string): int {
    if s != "" && IsSpace(s[0]) then Atoi(s[1..])
    else if s != "" && s[0] == '-' then -(ReadDigits(s[1..], 0) as int)
    else if s != "" && s[0] == '+' then ReadDigits(s[1..], 0)
    else ReadDigits(s, 0)
  }

  lemma {:induction false} ReadDigitsAppend(s: string, c: char, value: nat)
    requires IsDigit(c) && forall i :: 0 <= i < |s| ==> IsDigit(s[i])
    ensures ReadDigits(s + [c], value) == 10 * ReadDigits(s, value) + (c as int - '0' as int)
  {
    if s == "" {
      assert s + [c] == [c];
      assert [c][1..] == "";
    } else {
      assert (s + [c])[1..] == s[1..] + [c];
      ReadDigitsAppend(s[1..], c, 10 * value + (s[0] as int - '0' as int));
    }
  }

  lemma {:induction false} ReadDigitsOfDigits(n: nat)
    ensures ReadDigits(Digits(n), 0) == n
  {
    if n < 10 {
      assert [Digit(n)][1..] == "";
    } else {
      ReadDigitsOfDigits(n / 10);
      ReadDigitsAppend(Digits(n / 10), Digit(n % 10), 0);
    }
  }

  // Numbers survive printing and reading.
  lemma AtoiOfInt(n: int)
    ensures Atoi(Int(n)) == n
  {
    if n < 0 {
      ReadDigitsOfDigits(-n);
      assert Int(n)[1..] == Digits(-n);
    } else {
      ReadDigitsOfDigits(n);
      assert IsDigit(Int(n)[0]);
    }
  }

  lemma IntIsClean(n: int, delims: set<char>)
    requires forall c :: c in delims ==> !IsDigit(c) && c != '-'
    ensures Clean(Int(n), delims)
  {
  }

  // What follows the digits does not matter.
  lemma {:induction false} ReadDigitsStop(s: string, c: char, value: nat)
    requires !IsDigit(c) && forall i :: 0 <= i < |s| ==> IsDigit(s[i])
    ensures ReadDigits(s + [c], value) == ReadDigits(s, value)
  {
    if s == "" {
      assert s + [c] == [c];
    } else {
      assert (s + [c])[1..] == s[1..] + [c];
      ReadDigitsStop(s[1..], c, 10 * value + (s[0] as int - '0' as int));
    }
  }

  // A number with a letter behind it is read as the number.
  lemma AtoiOfIntAnd(n: int, c: char)
    requires !IsDigit(c)
    ensures Atoi(Int(n) + [c]) == n
  {
    var s := Int(n) + [c];
    if n < 0 {
      ReadDigitsOfDigits(-n);
      ReadDigitsStop(Digits(-n), c, 0);
      assert s[1..] == Digits(-n) + [c];
    } else {
      ReadDigitsOfDigits(n);
      ReadDigitsStop(Digits(n), c, 0);
      assert IsDigit(s[0]);
    }
  }

  // White space in front and a plus sign are passed over.
  lemma AtoiSkips(n: nat, c: char)
    requires c == ' ' || c == '\t' || c == '\n' || c == 11 as char || c == 12 as char || c == '\r'
    ensures Atoi([c] + Int(n)) == n && Atoi("+" + Int(n)) == n
  {
    AtoiOfInt(n);
    ReadDigitsOfDigits(n);
    assert ([c] + Int(n))[1..] == Int(n);
    assert ("+" + Int(n))[1..] == Int(n);
  }
}
