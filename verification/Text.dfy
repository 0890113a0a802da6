/** The string functions that the parsers and the header code rely on: strings.Split, strings.Join,
    strings.Cut and strings.TrimSpace (for the ASCII spaces), with the laws that connect them. */
module Text {
  import opened Basics

  predicate IsSpace(c: char) { c in " \t\n\r" || c == '\U{0B}' || c == '\U{0C}' }

  function Upper(c: char): char { if 'a' <= c <= 'z' then 'A' + (c - 'a') else c }

  function Lower(c: char): char { if 'A' <= c <= 'Z' then 'a' + (c - 'A') else c }

  /** strings.ToLower on ASCII. */
  function ToLower(s: string): string {
    if s == "" then "" else [Lower(s[0])] + ToLower(s[1..])
  }

  function TrimLeft(s: string): string {
    if s != "" && IsSpace(s[0]) then TrimLeft(s[1..]) else s
  }

  function TrimRight(s: string): string {
    if s != "" && IsSpace(s[|s| - 1]) then TrimRight(s[..|s| - 1]) else s
  }

  function Trim(s: string): string { TrimRight(TrimLeft(s)) }

  /** No space at either end. */
  predicate Trimmed(s: string) { s != "" ==> !IsSpace(s[0]) && !IsSpace(s[|s| - 1]) }

  function Split(s: string, sep: char): (parts: seq<string>)
    ensures parts != []
  {
    if s == "" then [""]
    else
      var rest := Split(s[1..], sep);
      if s[0] == sep then [""] + rest else [[s[0]] + rest[0]] + rest[1..]
  }

  function Join(parts: seq<string>, sep: string): string {
    if parts == [] then ""
    else if |parts| == 1 then parts[0]
    else parts[0] + sep + Join(parts[1..], sep)
  }

  /** strings.Cut: what is before and after the first separator, if there is one. */
  function Cut(s: string, sep: char): Option<(string, string)> {
    if s == "" then None
    else if s[0] == sep then Some(("", s[1..]))
    else
      match Cut(s[1..], sep)
      case None => None
      case Some((before, after)) => Some(([s[0]] + before, after))
  }

  function TrimAll(parts: seq<string>): seq<string> {
    if parts == [] then [] else [Trim(parts[0])] + TrimAll(parts[1..])
  }

  function NonEmpty(parts: seq<string>): seq<string> {
    if parts == [] then [] else (if parts[0] == "" then [] else [parts[0]]) + NonEmpty(parts[1..])
  }

  // Case

  lemma {:induction false} LowerAt(s: string)
    ensures |ToLower(s)| == |s| && forall i :: 0 <= i < |s| ==> ToLower(s)[i] == Lower(s[i])
  {
    if s != "" { LowerAt(s[1..]); }
  }

  /** Equal but for the case of ASCII letters. */
  predicate EqualFold(a: string, b: string) {
    && |a| == |b|
    && forall i :: 0 <= i < |a| ==>
         || a[i] == b[i]
         || ('A' <= a[i] <= 'Z' && b[i] as int == a[i] as int + 32)
         || ('A' <= b[i] <= 'Z' && a[i] as int == b[i] as int + 32)
  }

  lemma LowerIff(a: string, b: string)
    ensures ToLower(a) == ToLower(b) <==> EqualFold(a, b)
    ensures forall i :: 0 <= i < |ToLower(a)| ==> !('A' <= ToLower(a)[i] <= 'Z')
  {
    LowerAt(a);
    LowerAt(b);
    if ToLower(a) == ToLower(b) {
      forall i | 0 <= i < |a|
        ensures Lower(a[i]) == Lower(b[i])
      {
        assert ToLower(a)[i] == ToLower(b)[i];
      }
    }
    if EqualFold(a, b) {
      hide ToLower;
      assert forall i :: 0 <= i < |a| ==> ToLower(a)[i] == ToLower(b)[i];
    }
  }

  // Trimming

  lemma {:induction false} TrimRightFacts(s: string)
    ensures TrimRight(s) <= s
    ensures TrimRight(s) != "" ==> !IsSpace(TrimRight(s)[|TrimRight(s)| - 1])
  {
    if s != "" && IsSpace(s[|s| - 1]) { TrimRightFacts(s[..|s| - 1]); }
  }

  lemma {:induction false} TrimLeftFacts(s: string)
    ensures |TrimLeft(s)| <= |s| && TrimLeft(s) == s[|s| - |TrimLeft(s)|..]
    ensures TrimLeft(s) != "" ==> !IsSpace(TrimLeft(s)[0])
  {
    if s != "" && IsSpace(s[0]) { TrimLeftFacts(s[1..]); }
  }

  /** What Trim returns has no space at either end, and no character that was not there. */
  lemma TrimFacts(s: string)
    ensures Trimmed(Trim(s)) && |Trim(s)| <= |s|
    ensures forall c :: c in Trim(s) ==> c in s
  {
    TrimLeftFacts(s);
    TrimRightFacts(TrimLeft(s));
  }

  lemma TrimOfTrimmed(s: string)
    requires Trimmed(s)
    ensures Trim(s) == s
  {
  }

  lemma TrimLeading(c: char, s: string)
    requires IsSpace(c)
    ensures Trim([c] + s) == Trim(s)
  {
    assert ([c] + s)[1..] == s;
  }

  lemma {:induction false} TrimTrailing(s: string, c: char)
    requires IsSpace(c)
    ensures Trim(s + [c]) == Trim(s)
    decreases |s|
  {
    if s == "" {
      assert s + [c] == [c];
      assert [c][1..] == "";
    } else if IsSpace(s[0]) {
      assert (s + [c])[1..] == s[1..] + [c];
      TrimTrailing(s[1..], c);
    } else {
      assert TrimLeft(s + [c]) == s + [c];
      assert (s + [c])[..|s|] == s;
    }
  }

  lemma TrimAround(a: string, c: char, b: string)
    requires !IsSpace(c)
    ensures Trim(a + [c] + b) == TrimLeft(a) + [c] + TrimRight(b)
  {
    assert a + [c] + b == a + ([c] + b);
    TrimLeftStops(a, [c] + b);
    var left := TrimLeft(a) + [c];
    assert TrimLeft(a) + ([c] + b) == left + b;
    TrimRightStops(left, b);
  }

  lemma {:induction false} TrimLeftStops(a: string, b: string)
    requires b != "" && !IsSpace(b[0])
    ensures TrimLeft(a + b) == TrimLeft(a) + b
  {
    if a == "" {
      assert a + b == b;
    } else if IsSpace(a[0]) {
      assert (a + b)[1..] == a[1..] + b;
      TrimLeftStops(a[1..], b);
    }
  }

  lemma {:induction false} TrimRightStops(a: string, b: string)
    requires a != "" && !IsSpace(a[|a| - 1])
    ensures TrimRight(a + b) == a + TrimRight(b)
    decreases |b|
  {
    if b == "" {
      assert a + b == a;
    } else if IsSpace(b[|b| - 1]) {
      assert (a + b)[..|a + b| - 1] == a + b[..|b| - 1];
      TrimRightStops(a, b[..|b| - 1]);
    }
  }

  lemma {:induction false} TrimOfRight(s: string)
    ensures Trim(TrimRight(s)) == Trim(s)
  {
    if s != "" && IsSpace(s[|s| - 1]) {
      TrimOfRight(s[..|s| - 1]);
      TrimTrailing(s[..|s| - 1], s[|s| - 1]);
      assert s[..|s| - 1] + [s[|s| - 1]] == s;
    }
  }

  lemma {:induction false} TrimOfLeft(s: string)
    ensures Trim(TrimLeft(s)) == Trim(s)
  {
    if s != "" && IsSpace(s[0]) { TrimOfLeft(s[1..]); }
  }

  // Splitting

  lemma {:induction false} SplitPlain(s: string, sep: char)
    requires sep !in s
    ensures Split(s, sep) == [s]
  {
    if s != "" {
      SplitPlain(s[1..], sep);
      assert [s[0]] + s[1..] == s;
    }
  }

  lemma {:induction false} SplitFirst(a: string, sep: char, b: string)
    requires sep !in a
    ensures Split(a + [sep] + b, sep) == [a] + Split(b, sep)
  {
    var s := a + [sep] + b;
    if a == "" {
      assert s[1..] == b;
    } else {
      assert s[1..] == a[1..] + [sep] + b;
      SplitFirst(a[1..], sep, b);
      assert [a[0]] + a[1..] == a;
    }
  }

  lemma {:induction false} SplitParts(s: string, sep: char)
    ensures forall k :: 0 <= k < |Split(s, sep)| ==> sep !in Split(s, sep)[k]
    ensures forall k, c :: 0 <= k < |Split(s, sep)| && c in Split(s, sep)[k] ==> c in s
  {
    if s != "" {
      SplitParts(s[1..], sep);
      assert s == [s[0]] + s[1..];
    }
  }

  /** Splitting what was joined gives the parts back. */
  lemma {:induction false} SplitJoin(parts: seq<string>, sep: char)
    requires parts != [] && forall k :: 0 <= k < |parts| ==> sep !in parts[k]
    ensures Split(Join(parts, [sep]), sep) == parts
  {
    if |parts| == 1 {
      SplitPlain(parts[0], sep);
    } else {
      SplitJoin(parts[1..], sep);
      SplitFirst(parts[0], sep, Join(parts[1..], [sep]));
      assert parts == [parts[0]] + parts[1..];
    }
  }

  /** Joining with a separator and a space, as header lists are written, is undone by splitting and
      trimming. */
  lemma {:induction false} SplitJoinSpaced(parts: seq<string>, sep: char)
    requires parts != [] && !IsSpace(sep)
    requires forall k :: 0 <= k < |parts| ==> sep !in parts[k] && Trimmed(parts[k])
    ensures TrimAll(Split(Join(parts, [sep, ' ']), sep)) == parts
  {
    TrimOfTrimmed(parts[0]);
    if |parts| == 1 {
      SplitPlain(parts[0], sep);
      assert Split(parts[0], sep)[1..] == [];
    } else {
      var rest := Join(parts[1..], [sep, ' ']);
      SplitJoinSpaced(parts[1..], sep);
      assert parts[0] + [sep, ' '] + rest == parts[0] + [sep] + ([' '] + rest);
      SplitFirst(parts[0], sep, [' '] + rest);
      SplitLeadingSpace(' ', rest, sep);
      assert ([parts[0]] + Split([' '] + rest, sep))[1..] == Split([' '] + rest, sep);
      assert parts == [parts[0]] + parts[1..];
    }
  }

  /** Spaces at either end of a list only touch its first or last entry. */
  lemma SplitLeadingSpace(c: char, s: string, sep: char)
    requires IsSpace(c) && c != sep
    ensures TrimAll(Split([c] + s, sep)) == TrimAll(Split(s, sep))
  {
    assert ([c] + s)[1..] == s;
    var parts := Split(s, sep);
    TrimLeading(c, parts[0]);
    assert Split([c] + s, sep) == [[c] + parts[0]] + parts[1..];
    assert ([[c] + parts[0]] + parts[1..])[1..] == parts[1..];
  }

  lemma SplitTrailingSpace(s: string, c: char, sep: char)
    requires IsSpace(c) && c != sep
    ensures TrimAll(Split(s + [c], sep)) == TrimAll(Split(s, sep))
  {
    var parts := Split(s, sep);
    var front, last := parts[..|parts| - 1], parts[|parts| - 1];
    SplitSnoc(s, c, sep);
    TrimAllSnoc(front, last + [c]);
    TrimAllSnoc(front, last);
    TrimTrailing(last, c);
    assert parts == front + [last];
  }

  /** One more character that is not the separator goes to the last part. */
  lemma {:induction false} SplitSnoc(s: string, c: char, sep: char)
    requires c != sep
    ensures Split(s + [c], sep) == ExtendLast(Split(s, sep), c)
  {
    if s == "" {
      assert s + [c] == [c];
      SplitPlain([c], sep);
    } else {
      assert (s + [c])[1..] == s[1..] + [c];
      SplitSnoc(s[1..], c, sep);
      ExtendPrepended(Split(s[1..], sep), s[0], c);
    }
  }

  function ExtendLast(parts: seq<string>, c: char): seq<string>
    requires parts != []
  {
    parts[..|parts| - 1] + [parts[|parts| - 1] + [c]]
  }

  lemma ExtendPrepended(rest: seq<string>, d: char, c: char)
    requires rest != []
    ensures ExtendLast([""] + rest, c) == [""] + ExtendLast(rest, c)
    ensures ExtendLast([[d] + rest[0]] + rest[1..], c) == [[d] + ExtendLast(rest, c)[0]] + ExtendLast(rest, c)[1..]
  {
    if |rest| == 1 {
      assert [d] + (rest[0] + [c]) == [d] + rest[0] + [c];
    }
  }

  lemma {:induction false} TrimAllSnoc(parts: seq<string>, p: string)
    ensures TrimAll(parts + [p]) == TrimAll(parts) + [Trim(p)]
  {
    if parts == [] {
      assert [p][1..] == [];
    } else {
      assert (parts + [p])[1..] == parts[1..] + [p];
      TrimAllSnoc(parts[1..], p);
    }
  }

  lemma {:induction false} SplitTrimmed(s: string, sep: char)
    requires !IsSpace(sep)
    ensures TrimAll(Split(Trim(s), sep)) == TrimAll(Split(s, sep))
  {
    SplitTrimLeft(s, sep);
    SplitTrimRight(TrimLeft(s), sep);
  }

  lemma {:induction false} SplitTrimLeft(s: string, sep: char)
    requires !IsSpace(sep)
    ensures TrimAll(Split(TrimLeft(s), sep)) == TrimAll(Split(s, sep))
  {
    if s != "" && IsSpace(s[0]) {
      SplitTrimLeft(s[1..], sep);
      SplitLeadingSpace(s[0], s[1..], sep);
      assert [s[0]] + s[1..] == s;
    }
  }

  lemma {:induction false} SplitTrimRight(s: string, sep: char)
    requires !IsSpace(sep)
    ensures TrimAll(Split(TrimRight(s), sep)) == TrimAll(Split(s, sep))
  {
    if s != "" && IsSpace(s[|s| - 1]) {
      SplitTrimRight(s[..|s| - 1], sep);
      SplitTrailingSpace(s[..|s| - 1], s[|s| - 1], sep);
      assert s[..|s| - 1] + [s[|s| - 1]] == s;
    }
  }

  lemma {:induction false} TrimAllFacts(parts: seq<string>)
    ensures |TrimAll(parts)| == |parts|
    ensures forall k :: 0 <= k < |parts| ==> TrimAll(parts)[k] == Trim(parts[k])
  {
    if parts != [] { TrimAllFacts(parts[1..]); }
  }

  lemma TrimAllMembers(parts: seq<string>, x: string)
    ensures x in TrimAll(parts) <==> exists k :: 0 <= k < |parts| && x == Trim(parts[k])
  {
    TrimAllFacts(parts);
    hide TrimAll, Trim;
    if x in TrimAll(parts) {
      var k :| 0 <= k < |TrimAll(parts)| && TrimAll(parts)[k] == x;
      assert x == Trim(parts[k]);
    }
    if k :| 0 <= k < |parts| && x == Trim(parts[k]) {
      assert TrimAll(parts)[k] == x;
    }
  }

  lemma {:induction false} NonEmptyFacts(parts: seq<string>)
    ensures forall p :: p in NonEmpty(parts) <==> p in parts && p != ""
  {
    if parts != [] {
      NonEmptyFacts(parts[1..]);
      assert parts == [parts[0]] + parts[1..];
    }
  }

  lemma {:induction false} NonEmptyAll(parts: seq<string>)
    requires forall k :: 0 <= k < |parts| ==> parts[k] != ""
    ensures NonEmpty(parts) == parts
  {
    if parts != [] {
      NonEmptyAll(parts[1..]);
      assert parts == [parts[0]] + parts[1..];
    }
  }

  lemma {:induction false} CutFirst(a: string, sep: char, b: string)
    requires sep !in a
    ensures Cut(a + [sep] + b, sep) == Some((a, b))
  {
    var s := a + [sep] + b;
    if a == "" {
      assert s[1..] == b;
    } else {
      assert s[1..] == a[1..] + [sep] + b;
      CutFirst(a[1..], sep, b);
      assert [a[0]] + a[1..] == a;
    }
  }

  /** Cut finds the first separator, and finds none exactly when there is none. */
  lemma {:induction false} CutFacts(s: string, sep: char)
    ensures Cut(s, sep).None? <==> sep !in s
    ensures Cut(s, sep).Some? ==>
      var (before, after) := Cut(s, sep).value; s == before + [sep] + after && sep !in before
  {
    if s != "" {
      CutFacts(s[1..], sep);
      assert s == [s[0]] + s[1..];
    }
  }

  /** Cutting a trimmed text gives halves that differ from those that were written in outer spaces only. */
  lemma CutTrimmed(a: string, sep: char, b: string)
    requires !IsSpace(sep) && sep !in a
    ensures var s := Trim(a + [sep] + b);
      && s != "" && Cut(s, sep).Some?
      && var (before, after) := Cut(s, sep).value; Trim(before) == Trim(a) && Trim(after) == Trim(b)
  {
    TrimAround(a, sep, b);
    TrimLeftFacts(a);
    CutFirst(TrimLeft(a), sep, TrimRight(b));
    TrimOfLeft(a);
    TrimOfRight(b);
  }

  // Decimal numerals

  function Digit(d: int): char
    requires 0 <= d < 10
  {
    '0' + d as char
  }

  predicate IsDigit(c: char) { '0' <= c <= '9' }

  function Decimal(n: nat): string {
    if n < 10 then [Digit(n)] else Decimal(n / 10) + [Digit(n % 10)]
  }

  /** strconv.FormatInt in base ten. */
  function FormatInt(n: int): string { if n < 0 then "-" + Decimal(-n) else Decimal(n) }

  predicate AllDigits(s: string) { forall i :: 0 <= i < |s| ==> IsDigit(s[i]) }

  function DigitsValue(s: string): nat
    requires AllDigits(s)
  {
    if s == "" then 0 else DigitsValue(s[..|s| - 1]) * 10 + (s[|s| - 1] as int - '0' as int)
  }

  function Unsigned(s: string): Option<int> {
    if s != "" && AllDigits(s) then Some(DigitsValue(s)) else None
  }

  /** strconv.Atoi; values beyond the machine's integers are its error too, but far outside the ports. */
  function Atoi(s: string): Option<int> {
    if s == "" then None
    else if s[0] == '+' then Unsigned(s[1..])
    else if s[0] == '-' then
      match Unsigned(s[1..])
      case None => None
      case Some(n) => Some(-n)
    else Unsigned(s)
  }

  lemma {:induction false} DecimalFacts(n: nat)
    ensures Decimal(n) != "" && AllDigits(Decimal(n)) && DigitsValue(Decimal(n)) == n
  {
    if n >= 10 {
      DecimalFacts(n / 10);
      var d := Decimal(n);
      assert d[..|d| - 1] == Decimal(n / 10);
    } else {
      assert Decimal(n)[..0] == "";
    }
  }

  /** Reading a printed integer gives it back, with a plus sign or without. */
  lemma AtoiUndoesFormat(n: int)
    ensures Atoi(FormatInt(n)) == Some(n)
    ensures n >= 0 ==> Atoi("+" + FormatInt(n)) == Some(n)
  {
    var digits := Decimal(if n < 0 then -n else n);
    DecimalFacts(if n < 0 then -n else n);
    assert IsDigit(digits[0]);
    assert ("-" + digits)[1..] == digits && ("+" + digits)[1..] == digits;
  }
}
