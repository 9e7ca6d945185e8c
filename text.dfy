/** The JavaScript string built-ins the components call: `trim`, `includes`,
    `toLowerCase`/`toUpperCase` (on ASCII letters), `split(' ')` followed by
    taking each word's first character, and `parseInt`. */
module Text {
  import opened Collections

  /** The characters `String.prototype.trim` removes: ECMAScript WhiteSpace
      (tab, vertical tab, form feed, the space separators, BOM) and
      LineTerminator (LF, CR, LS, PS). */
  predicate IsWhitespace(c: char) {
    c == ' ' || c == '\t' || c == '\n' || c == '\r'
    || c == '\U{000B}' || c == '\U{000C}' || c == '\U{00A0}' || c == '\U{1680}'
    || ('\U{2000}' <= c <= '\U{200A}')
    || c == '\U{2028}' || c == '\U{2029}' || c == '\U{202F}' || c == '\U{205F}'
    || c == '\U{3000}' || c == '\U{FEFF}'
  }

  predicate IsBlank(s: string) {
    forall i :: 0 <= i < |s| ==> IsWhitespace(s[i])
  }

  /** `s` with its leading whitespace removed: the suffix that does not start
      with whitespace and leaves only whitespace in front of it. */
  function TrimStart(s: string): (r: string)
    ensures |r| <= |s| && r == s[|s| - |r|..]
    ensures r == [] || !IsWhitespace(r[0])
    ensures IsBlank(s[..|s| - |r|])
    decreases |s|
  {
    if s != [] && IsWhitespace(s[0]) then
      var r := TrimStart(s[1..]);
      assert s[..|s| - |r|] == [s[0]] + s[1..][..|s| - 1 - |r|];
      r
    else s
  }

  /** `s` with its trailing whitespace removed. */
  function TrimEnd(s: string): (r: string)
    ensures |r| <= |s| && r == s[..|r|]
    ensures r == [] || !IsWhitespace(r[|r| - 1])
    ensures IsBlank(s[|r|..])
    decreases |s|
  {
    if s != [] && IsWhitespace(s[|s| - 1]) then
      var r := TrimEnd(s[..|s| - 1]);
      assert s[|r|..] == s[..|s| - 1][|r|..] + [s[|s| - 1]];
      r
    else s
  }

  /** `String.prototype.trim`. */
  function Trim(s: string): (r: string)
    ensures r == [] || (!IsWhitespace(r[0]) && !IsWhitespace(r[|r| - 1]))
  {
    TrimEnd(TrimStart(s))
  }

  /** The trimmed string is a slice of the original with only whitespace cut
      off either end; it is empty exactly when the original is blank, which is
      what the `if (!x.trim())` guards of the form test. */
  lemma TrimSpec(s: string)
    ensures exists i, j :: 0 <= i <= j <= |s| && Trim(s) == s[i..j] && IsBlank(s[..i]) && IsBlank(s[j..])
    ensures Trim(s) == [] <==> IsBlank(s)
  {
    var t := TrimStart(s);
    var i := |s| - |t|;
    var j := i + |TrimEnd(t)|;
    assert Trim(s) == s[i..j];
    assert s[j..] == t[|TrimEnd(t)|..];
    if Trim(s) == [] {
      assert t[|TrimEnd(t)|..] == t;
      assert t == [];
      assert s[..i] == s;
    }
  }

  /** Trimming twice is trimming once. */
  lemma TrimIdempotent(s: string)
    ensures Trim(Trim(s)) == Trim(s)
  {
    var r := Trim(s);
    if r != [] {
      assert TrimStart(r) == r;
      assert TrimEnd(r) == r;
    }
  }

  function LowerChar(c: char): char {
    if 'A' <= c <= 'Z' then (c as int + 32) as char else c
  }

  function UpperChar(c: char): char {
    if 'a' <= c <= 'z' then (c as int - 32) as char else c
  }

  /** `toLowerCase`, on the ASCII letters: no capital is left, and every
      character other than a capital is kept. */
  function Lower(s: string): (r: string)
    ensures |r| == |s| && forall i :: 0 <= i < |s| ==> r[i] == LowerChar(s[i])
    ensures forall i :: 0 <= i < |r| ==> !('A' <= r[i] <= 'Z')
    ensures forall i :: 0 <= i < |s| && !('A' <= s[i] <= 'Z') ==> r[i] == s[i]
  {
    seq(|s|, i requires 0 <= i < |s| => LowerChar(s[i]))
  }

  /** `toUpperCase`, on the ASCII letters: no small letter is left, and
      every character other than a small letter is kept. */
  function Upper(s: string): (r: string)
    ensures |r| == |s| && forall i :: 0 <= i < |s| ==> r[i] == UpperChar(s[i])
    ensures forall i :: 0 <= i < |r| ==> !('a' <= r[i] <= 'z')
    ensures forall i :: 0 <= i < |s| && !('a' <= s[i] <= 'z') ==> r[i] == s[i]
  {
    seq(|s|, i requires 0 <= i < |s| => UpperChar(s[i]))
  }

  /** The two mappings agree on which letter a character is: lower-casing
      after upper-casing is lower-casing, and the other way round. */
  lemma CaseRoundTrip(s: string)
    ensures Lower(Upper(s)) == Lower(s) && Upper(Lower(s)) == Upper(s)
    ensures Lower(Lower(s)) == Lower(s) && Upper(Upper(s)) == Upper(s)
  {
  }

  ghost predicate OccursAt(hay: string, needle: string, i: int) {
    0 <= i && i + |needle| <= |hay| && hay[i..i + |needle|] == needle
  }

  /** `String.prototype.includes`: `needle` occurs somewhere in `hay`. */
  function Contains(hay: string, needle: string): (b: bool)
    ensures b <==> exists i :: OccursAt(hay, needle, i)
    decreases |hay|
  {
    if |needle| > |hay| then false
    else if hay[..|needle|] == needle then (assert OccursAt(hay, needle, 0); true)
    else (
      var b := Contains(hay[1..], needle);
      assert forall i :: OccursAt(hay[1..], needle, i) ==> OccursAt(hay, needle, i + 1);
      assert forall i :: OccursAt(hay, needle, i) ==> i == 0 || OccursAt(hay[1..], needle, i - 1);
      b)
  }

  /** The empty search term occurs in every string. */
  lemma ContainsEmpty(hay: string)
    ensures Contains(hay, [])
  {
    assert OccursAt(hay, [], 0);
  }

  /** `xs.join(' ')` for a non-empty list of strings. */
  function JoinWithSpaces(xs: seq<string>): string
    requires |xs| >= 1
    decreases |xs|
  {
    if |xs| == 1 then xs[0] else xs[0] + [' '] + JoinWithSpaces(xs[1..])
  }

  /** `s.split(' ')`: the pieces between single spaces; consecutive spaces give
      empty pieces, so there is always one piece more than there are spaces.
      Joining the pieces with spaces gives `s` back. */
  function Split(s: string): (pieces: seq<string>)
    ensures |pieces| >= 1
    ensures JoinWithSpaces(pieces) == s
    ensures forall i :: 0 <= i < |pieces| ==> ' ' !in pieces[i]
    decreases |s|
  {
    if s == [] then [[]]
    else
      var rest := Split(s[1..]);
      if s[0] == ' ' then
        assert ([[]] + rest)[1..] == rest;
        [[]] + rest
      else
        var pieces := [[s[0]] + rest[0]] + rest[1..];
        assert |rest| > 1 ==> pieces[1..] == rest[1..];
        assert s == [s[0]] + s[1..];
        pieces
  }

  /** `words.map(w => w[0]).join('')`: the first character of every word; an
      empty word contributes `undefined`, which `join` writes as nothing. */
  function FirstLetters(words: seq<string>): (r: string)
    ensures |r| <= |words|
    ensures (forall i :: 0 <= i < |words| ==> words[i] != []) ==>
      |r| == |words| && forall i :: 0 <= i < |words| ==> r[i] == words[i][0]
    decreases |words|
  {
    if words == [] then []
    else (if words[0] == [] then [] else [words[0][0]]) + FirstLetters(words[1..])
  }

  /** Reference definition: the characters of `s` that are not a space and
      follow a space or the start of the string (`afterSpace` says whether the
      previous character was a space, or there was none). */
  function WordStartsFrom(s: string, afterSpace: bool): string
    decreases |s|
  {
    if s == [] then []
    else (if afterSpace && s[0] != ' ' then [s[0]] else []) + WordStartsFrom(s[1..], s[0] == ' ')
  }

  function WordStarts(s: string): string {
    WordStartsFrom(s, true)
  }

  /** Taking the first letter of every piece of `split(' ')` picks exactly the
      characters that start a word. */
  lemma {:induction false} FirstLettersOfSplit(s: string)
    ensures FirstLetters(Split(s)) == WordStarts(s)
    ensures FirstLetters(Split(s)[1..]) == WordStartsFrom(s, false)
    decreases |s|
  {
    if s != [] {
      FirstLettersOfSplit(s[1..]);
      var rest := Split(s[1..]);
      if s[0] == ' ' {
        assert Split(s) == [[]] + rest;
        assert Split(s)[1..] == rest;
      } else {
        assert Split(s) == [[s[0]] + rest[0]] + rest[1..];
        assert Split(s)[1..] == rest[1..];
        if rest[0] == [] {
          assert FirstLetters(rest) == FirstLetters(rest[1..]);
        } else {
          assert FirstLetters(rest) == [rest[0][0]] + FirstLetters(rest[1..]);
        }
      }
    }
  }

  predicate IsDigit(c: char) {
    '0' <= c <= '9'
  }

  /** The longest prefix of `s` made of decimal digits. */
  function LeadingDigits(s: string): (ds: string)
    ensures |ds| <= |s| && ds == s[..|ds|]
    ensures forall i :: 0 <= i < |ds| ==> IsDigit(ds[i])
    ensures |ds| == |s| || !IsDigit(s[|ds|])
    decreases |s|
  {
    if s != [] && IsDigit(s[0]) then
      var rest := LeadingDigits(s[1..]);
      assert s[..|rest| + 1] == [s[0]] + s[1..][..|rest|];
      [s[0]] + rest
    else []
  }

  function DigitValue(c: char): nat
    requires IsDigit(c)
  {
    c as int - '0' as int
  }

  function DigitsValue(ds: string): nat
    requires forall i :: 0 <= i < |ds| ==> IsDigit(ds[i])
    decreases |ds|
  {
    if ds == [] then 0
    else
      assert IsDigit(ds[|ds| - 1]);
      10 * DigitsValue(ds[..|ds| - 1]) + DigitValue(ds[|ds| - 1])
  }

  /** The value of the leading digits of `body`, or `None` when it has none. */
  function ParseDigits(body: string): (r: Option<int>)
    ensures r.Some? ==> r.value >= 0
  {
    var ds := LeadingDigits(body);
    if ds == [] then None else Some(DigitsValue(ds) as int)
  }

  /** `parseInt(s)` with the default radix, on the text a number input holds:
      leading whitespace is skipped, an optional sign is read, then the longest
      run of decimal digits; no digits gives `NaN`, written `None`. */
  function ParseInt(s: string): (r: Option<int>)
    ensures var t := TrimStart(s);
      var body := if t != [] && (t[0] == '-' || t[0] == '+') then t[1..] else t;
      (r.Some? <==> body != [] && IsDigit(body[0])) &&
      (r.Some? ==> r.value == if t[0] == '-' then -(DigitsValue(LeadingDigits(body)) as int)
                              else DigitsValue(LeadingDigits(body)) as int)
  {
    ParseSigned(TrimStart(s))
  }

  /** An optional sign, then the digits. */
  function ParseSigned(t: string): Option<int> {
    if t != [] && t[0] == '-' then Negated(ParseDigits(t[1..]))
    else if t != [] && t[0] == '+' then ParseDigits(t[1..])
    else ParseDigits(t)
  }

  function Negated(r: Option<int>): Option<int> {
    match r
    case None => None
    case Some(v) => Some(-v)
  }

  function ShowNat(n: nat): (s: string)
    ensures |s| >= 1 && forall i :: 0 <= i < |s| ==> IsDigit(s[i])
    decreases n
  {
    if n < 10 then [('0' as int + n) as char] else ShowNat(n / 10) + [('0' as int + n % 10) as char]
  }

  /** Decimal text of an integer, as the number input holds it. */
  function ShowInt(n: int): string {
    if n < 0 then ['-'] + ShowNat(-n) else ShowNat(n)
  }

  lemma {:induction false} DigitsValueShowNat(n: nat)
    ensures DigitsValue(ShowNat(n)) == n
    decreases n
  {
    if n >= 10 {
      DigitsValueShowNat(n / 10);
      var s := ShowNat(n);
      assert s[..|s| - 1] == ShowNat(n / 10);
    }
  }

  /** The leading digits stop at the first character that is not a digit. */
  lemma {:induction false} LeadingDigitsThen(ds: string, rest: string)
    requires forall i :: 0 <= i < |ds| ==> IsDigit(ds[i])
    requires rest == [] || !IsDigit(rest[0])
    ensures LeadingDigits(ds + rest) == ds
    decreases |ds|
  {
    if ds != [] {
      LeadingDigitsThen(ds[1..], rest);
      var tail := ds[1..] + rest;
      assert ds + rest == [ds[0]] + tail;
      assert ([ds[0]] + tail)[1..] == tail;
    }
  }

  /** Text that starts with a digit or a minus sign has no leading whitespace. */
  lemma TrimStartKeeps(s: string)
    requires s != [] && (IsDigit(s[0]) || s[0] == '-')
    ensures TrimStart(s) == s
  {
    assert !IsWhitespace(s[0]);
  }

  /** A digit string is read as its value. */
  lemma ParseDigitsAll(ds: string)
    requires forall i :: 0 <= i < |ds| ==> IsDigit(ds[i])
    ensures ParseDigits(ds) == if ds == [] then None else Some(DigitsValue(ds) as int)
  {
    LeadingDigitsThen(ds, []);
    assert ds + [] == ds;
  }

  /** Text starting with a digit is read without a sign. */
  lemma ParseIntPlain(ds: string)
    requires ds != [] && IsDigit(ds[0])
    ensures ParseInt(ds) == ParseDigits(ds)
  {
    TrimStartKeeps(ds);
  }

  /** After a minus sign the digits are read and negated. */
  lemma ParseIntMinus(ds: string)
    ensures ParseInt(['-'] + ds) == Negated(ParseDigits(ds))
  {
    TrimStartKeeps(['-'] + ds);
    assert (['-'] + ds)[1..] == ds;
  }

  /** `parseInt` reads the digits at the front and ignores what follows the
      first non-digit: leading zeros add nothing ("007" is 7) and a fraction
      is cut off ("1.5" is 1). */
  lemma ParseIntDigitsThen(ds: string, rest: string)
    requires ds != [] && forall i :: 0 <= i < |ds| ==> IsDigit(ds[i])
    requires rest == [] || !IsDigit(rest[0])
    ensures ParseInt(ds + rest) == Some(DigitsValue(ds) as int)
  {
    ParseIntPlain(ds + rest);
    LeadingDigitsThen(ds, rest);
  }

  /** `parseInt` reads back every integer written in decimal. */
  lemma ParseIntShowInt(n: int)
    ensures ParseInt(ShowInt(n)) == Some(n)
  {
    var m: nat := if n < 0 then -n else n;
    var s := ShowNat(m);
    assert ParseDigits(s) == Some(m) by {
      DigitsValueShowNat(m);
      ParseDigitsAll(s);
    }
    if n < 0 {
      ParseIntMinus(s);
    } else {
      ParseIntPlain(s);
    }
  }
}
