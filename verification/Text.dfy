/** The string operations the schedule parser and wizard use, over ASCII text. */
module Text {

  predicate IsSpace(c: char) { c == ' ' || '\t' <= c <= '\r' || '\U{1c}' <= c <= '\U{1f}' }

  predicate IsDigit(c: char) { '0' <= c <= '9' }

  predicate AllDigits(s: string) {
    s != "" && forall i :: 0 <= i < |s| ==> IsDigit(s[i])
  }

  /** `str.isspace`-free and not empty: one field of a split text. */
  predicate Solid(s: string) {
    s != "" && forall i :: 0 <= i < |s| ==> !IsSpace(s[i])
  }

  // ---- Trimming ----

  function LeftTrimmed(s: string): (r: string)
    ensures |r| <= |s|
    ensures r != "" ==> !IsSpace(r[0])
    decreases |s|
  {
    if s != "" && IsSpace(s[0]) then LeftTrimmed(s[1..]) else s
  }

  function RightTrimmed(s: string): (r: string)
    ensures r <= s
    ensures r != "" ==> !IsSpace(r[|r| - 1])
    decreases |s|
  {
    if s != "" && IsSpace(s[|s| - 1]) then RightTrimmed(s[..|s| - 1]) else s
  }

  /** `s.strip()` */
  function Stripped(s: string): string {
    RightTrimmed(LeftTrimmed(s))
  }

  /** What stripping never changes. */
  predicate Trim(s: string) {
    s == "" || (!IsSpace(s[0]) && !IsSpace(s[|s| - 1]))
  }

  lemma StrippedIsTrim(s: string)
    ensures Trim(Stripped(s))
  {
    var left := LeftTrimmed(s);
    assert RightTrimmed(left) <= left;
  }

  lemma TrimIsStripped(s: string)
    requires Trim(s)
    ensures Stripped(s) == s
  {
  }

  // ---- Splitting and joining ----

  function Split(word: string, s: string): seq<string>
    decreases |s|
  {
    if s == "" then (if word == "" then [] else [word])
    else if IsSpace(s[0]) then (if word == "" then [] else [word]) + Split("", s[1..])
    else Split(word + [s[0]], s[1..])
  }

  /** `s.split()` */
  function Words(s: string): seq<string> {
    Split("", s)
  }

  /** `" ".join(ws)` */
  function Join(ws: seq<string>): string
    decreases |ws|
  {
    if ws == [] then "" else if |ws| == 1 then ws[0] else ws[0] + " " + Join(ws[1..])
  }

  predicate AllSolid(ws: seq<string>) {
    forall i :: 0 <= i < |ws| ==> Solid(ws[i])
  }

  lemma {:induction false} SplitWord(word: string, t: string, rest: string)
    requires forall i :: 0 <= i < |t| ==> !IsSpace(t[i])
    ensures Split(word, t + rest) == Split(word + t, rest)
    decreases |t|
  {
    if t == "" {
      assert t + rest == rest && word + t == word;
    } else {
      assert (t + rest)[0] == t[0] && (t + rest)[1..] == t[1..] + rest;
      SplitWord(word + [t[0]], t[1..], rest);
      assert word + [t[0]] + t[1..] == word + t;
    }
  }

  /** Splitting undoes joining. */
  lemma {:induction false} WordsOfJoin(ws: seq<string>)
    requires AllSolid(ws)
    ensures Words(Join(ws)) == ws
    decreases |ws|
  {
    if |ws| == 1 {
      SplitWord("", ws[0], "");
      assert ws[0] + "" == ws[0] && "" + ws[0] == ws[0];
    } else if |ws| > 1 {
      var rest := " " + Join(ws[1..]);
      assert Join(ws) == ws[0] + rest;
      SplitWord("", ws[0], rest);
      assert "" + ws[0] == ws[0] && rest[1..] == Join(ws[1..]);
      WordsOfJoin(ws[1..]);
    }
  }

  /** Every field of a split text is solid. */
  lemma {:induction false} SplitIsSolid(word: string, s: string)
    requires forall i :: 0 <= i < |word| ==> !IsSpace(word[i])
    ensures AllSolid(Split(word, s))
    decreases |s|
  {
    if s != "" {
      if IsSpace(s[0]) {
        SplitIsSolid("", s[1..]);
      } else {
        SplitIsSolid(word + [s[0]], s[1..]);
      }
    }
  }

  // ---- Case ----

  function LowerChar(c: char): char {
    if 'A' <= c <= 'Z' then (c as int + 32) as char else c
  }

  /** `s.lower()` */
  function Lower(s: string): string {
    seq(|s|, i requires 0 <= i < |s| => LowerChar(s[i]))
  }

  function LowerAll(ws: seq<string>): seq<string> {
    seq(|ws|, i requires 0 <= i < |ws| => Lower(ws[i]))
  }

  lemma {:induction false} LowerOfJoin(ws: seq<string>)
    ensures Lower(Join(ws)) == Join(LowerAll(ws))
    decreases |ws|
  {
    if |ws| > 1 {
      LowerOfJoin(ws[1..]);
      assert LowerAll(ws)[1..] == LowerAll(ws[1..]);
      assert Lower(ws[0] + " " + Join(ws[1..])) == Lower(ws[0]) + " " + Lower(Join(ws[1..]));
    }
  }

  // ---- Numbers ----

  function Digit(n: nat): (c: char)
    requires n < 10
    ensures IsDigit(c) && Value(c) == n
  {
    ('0' as int + n) as char
  }

  function Value(c: char): (n: nat)
    requires IsDigit(c)
    ensures n < 10
  {
    c as int - '0' as int
  }

  /** `str(n)` */
  function Decimal(n: nat): (s: string)
    ensures AllDigits(s) && |s| >= 1
    decreases n
  {
    if n < 10 then [Digit(n)] else Decimal(n / 10) + [Digit(n % 10)]
  }

  /** `int(s)` */
  function Number(s: string): nat
    requires forall i :: 0 <= i < |s| ==> IsDigit(s[i])
    decreases |s|
  {
    if s == "" then 0 else Number(s[..|s| - 1]) * 10 + Value(s[|s| - 1])
  }

  lemma {:induction false} NumberOfDecimal(n: nat)
    ensures Number(Decimal(n)) == n
    decreases n
  {
    if n >= 10 {
      NumberOfDecimal(n / 10);
      var s := Decimal(n);
      assert s[..|s| - 1] == Decimal(n / 10);
    } else {
      assert Decimal(n)[..0] == "";
    }
  }

  lemma SmallDecimal(n: nat)
    requires n < 100
    ensures |Decimal(n)| == if n < 10 then 1 else 2
  {
  }

  /** `f"{n:02d}"` */
  function Padded(n: nat): string {
    if n < 10 then "0" + Decimal(n) else Decimal(n)
  }

  lemma NumberOfPadded(n: nat)
    requires n < 100
    ensures |Padded(n)| == 2 && AllDigits(Padded(n)) && Number(Padded(n)) == n
  {
    NumberOfDecimal(n);
    SmallDecimal(n);
    var s := Padded(n);
    if n < 10 {
      assert s[0] == '0' && s[1] == Digit(n);
      assert s[..1] == "0" && s[..1][..0] == "";
    }
  }

  /** How many digits `s` starts with. */
  function LeadingDigits(s: string): (n: nat)
    ensures n <= |s| && forall i :: 0 <= i < n ==> IsDigit(s[i])
    decreases |s|
  {
    if s == "" || !IsDigit(s[0]) then 0 else 1 + LeadingDigits(s[1..])
  }

  lemma {:induction false} LeadingDigitsOf(d: string, rest: string)
    requires forall i :: 0 <= i < |d| ==> IsDigit(d[i])
    requires rest == "" || !IsDigit(rest[0])
    ensures LeadingDigits(d + rest) == |d|
    decreases |d|
  {
    if d == "" {
      assert d + rest == rest;
    } else {
      assert (d + rest)[0] == d[0] && (d + rest)[1..] == d[1..] + rest;
      LeadingDigitsOf(d[1..], rest);
    }
  }

  // ---- What splitting, trimming and lower case mean ----

  /** White space and nothing else separates fields: any one character of it, or more. */
  lemma {:induction false} WordsAround(word: string, a: string, c: char, b: string)
    requires IsSpace(c)
    ensures Split(word, a + [c] + b) == Split(word, a) + Words(b)
    decreases |a|
  {
    if a == "" {
      assert (a + [c] + b)[0] == c && (a + [c] + b)[1..] == b;
    } else {
      assert (a + [c] + b)[0] == a[0] && (a + [c] + b)[1..] == a[1..] + [c] + b;
      if IsSpace(a[0]) {
        WordsAround("", a[1..], c, b);
      } else {
        WordsAround(word + [a[0]], a[1..], c, b);
      }
    }
  }

  /** A text without white space is one field; a text is split at each of its white spaces. */
  lemma WordsAre(a: string, c: char, b: string)
    ensures Solid(a) ==> Words(a) == [a]
    ensures Words("") == []
    ensures IsSpace(c) ==> Words(a + [c] + b) == Words(a) + Words(b)
  {
    if Solid(a) {
      WordsOfJoin([a]);
    }
    if IsSpace(c) {
      WordsAround("", a, c, b);
    }
  }

  lemma {:induction false} LeftSpaceGoes(left: string, s: string)
    requires (forall i :: 0 <= i < |left| ==> IsSpace(left[i])) && s != "" && !IsSpace(s[0])
    ensures LeftTrimmed(left + s) == s
    decreases |left|
  {
    if left == "" {
      assert left + s == s;
    } else {
      assert (left + s)[0] == left[0] && (left + s)[1..] == left[1..] + s;
      LeftSpaceGoes(left[1..], s);
    }
  }

  lemma {:induction false} RightSpaceGoes(s: string, right: string)
    requires (forall i :: 0 <= i < |right| ==> IsSpace(right[i])) && s != "" && !IsSpace(s[|s| - 1])
    ensures RightTrimmed(s + right) == s
    decreases |right|
  {
    if right == "" {
      assert s + right == s;
    } else {
      var last := |right| - 1;
      assert (s + right)[|s + right| - 1] == right[last] && (s + right)[..|s + right| - 1] == s + right[..last];
      RightSpaceGoes(s, right[..last]);
    }
  }

  /** Stripping takes the white space around a text, and nothing of the text. */
  lemma StrippedIsInside(left: string, s: string, right: string)
    requires forall i :: 0 <= i < |left| ==> IsSpace(left[i])
    requires forall i :: 0 <= i < |right| ==> IsSpace(right[i])
    requires Trim(s) && s != ""
    ensures Stripped(left + s + right) == s
  {
    assert left + s + right == left + (s + right);
    LeftSpaceGoes(left, s + right);
    RightSpaceGoes(s, right);
  }

  /** Capitals become their small letters; everything else stays. */
  lemma LowerIs(s: string, i: nat)
    requires i < |s|
    ensures |Lower(s)| == |s|
    ensures Lower(s)[i] == if 'A' <= s[i] <= 'Z' then 'a' + (s[i] - 'A') else s[i]
  {
  }

  /** The ASCII characters that count as white space. */
  lemma SpacesAre(c: char)
    ensures IsSpace(c) <==> c in " \t\n\U{b}\U{c}\r\U{1c}\U{1d}\U{1e}\U{1f}"
  {
    if '\U{1c}' <= c <= '\U{1f}' {
      assert c == '\U{1c}' || c == '\U{1d}' || c == '\U{1e}' || c == '\U{1f}';
    }
    if '\t' <= c <= '\r' {
      assert c == '\t' || c == '\n' || c == '\U{b}' || c == '\U{c}' || c == '\r';
    }
  }
}
