/** The set-position command of the rotator protocol (api.c). */
module Rotator {
  import opened Decimal
  import opened CStrings

  /** The index at which a search for one of `stop` from i ends, at the latest l. */
  function Scan(s: seq<char>, i: nat, l: nat, stop: set<char>): (j: nat)
    requires l <= |s|
    ensures i <= j && (j <= l || j == i)
    decreases l - i
  {
    if i < l && s[i] !in stop then Scan(s, i + 1, l, stop) else i
  }

  const DECIMAL: set<char> := {'.', ','}
  const BLANK: set<char> := {' '}

  /** The message with its separators blanked, and where its numbers begin after the first. */
  datatype Parsed = Parsed(text: seq<char>, n2: nat, n3: nat, n4: nat)

  /** One search: blank what it stops at. */
  function Blank(s: seq<char>, i: nat, l: nat, stop: set<char>): (t: seq<char>)
    requires l <= |s| && Scan(s, i, l, stop) < |s|
    ensures |t| == |s|
  {
    s[Scan(s, i, l, stop) := '_']
  }

  // Where the second, third and fourth number begin; a separator not found is taken to be at the end.

  function Second(s: seq<char>, l: nat): (n: nat)
    requires l <= |s|
    ensures 2 < n
  {
    Scan(s, 2, l, DECIMAL) + 1
  }

  function Third(s: seq<char>, l: nat): (n: nat)
    requires l <= |s|
    ensures Second(s, l) < n
  {
    Scan(s, Second(s, l), l, BLANK) + 1
  }

  function Fourth(s: seq<char>, l: nat): (n: nat)
    requires l <= |s|
    ensures Third(s, l) < n
  {
    Scan(s, Third(s, l), l, DECIMAL) + 1
  }

  /** The message is terminated within the buffer, and all its cuts are. */
  predicate CutInside(s: seq<char>, l: nat) { l < |s| && Fourth(s, l) < |s| }

  function CutUp(s: seq<char>, l: nat): (p: Parsed)
    requires CutInside(s, l)
    ensures |p.text| == |s|
    ensures p.n2 == Second(s, l) && p.n3 == Third(s, l) && p.n4 == Fourth(s, l)
  {
    var n2 := Scan(s, 2, l, DECIMAL) + 1;
    var s1 := Blank(s, 2, l, DECIMAL);
    ScanBehind(s, n2 - 1, n2, l, BLANK);
    var n3 := Scan(s1, n2, l, BLANK) + 1;
    var s2 := Blank(s1, n2, l, BLANK);
    ScanBehind(s, n2 - 1, n3, l, DECIMAL);
    ScanBehind(s1, n3 - 1, n3, l, DECIMAL);
    var n4 := Scan(s2, n3, l, DECIMAL) + 1;
    Parsed(Blank(s2, n3, l, DECIMAL), n2, n3, n4)
  }

  /** A cut before its start does not change a search. */
  lemma {:induction false} ScanBehind(s: seq<char>, k: nat, i: nat, l: nat, stop: set<char>)
    requires l <= |s| && k < i && k < |s|
    ensures Scan(s[k := '_'], i, l, stop) == Scan(s, i, l, stop)
    decreases l - i
  {
    if i >= l {
    } else {
      ScanBehind(s, k, i + 1, l, stop);
    }
  }

  /**
   * A message of length l is cut inside every longer buffer if it has its
   * separators, and in the worst case needs three characters more.
   */
  lemma CutInsideIff(l: nat, size: nat)
    requires l < size
    ensures (forall s: seq<char> | |s| == size :: CutInside(s, l)) <==> (if l < 2 then 2 else l) + 3 < size
    ensures forall s: seq<char> | |s| == size && Fourth(s, l) <= l :: CutInside(s, l)
  {
    var s := seq(size, _ => 'x');
    ScanStopsAt(s, 2, l, DECIMAL);
    ScanStopsAt(s, Second(s, l), l, BLANK);
    ScanStopsAt(s, Third(s, l), l, DECIMAL);
    assert Fourth(s, l) == (if l < 2 then 2 else l) + 3;
    assert |s| == size;
  }

  /** The parser's verdict on a message of length l. */
  predicate Accepts(p: Parsed, l: nat) { p.n4 != l }

  /** Integer and hundredths, as exact values where the source has floats. */
  function Number(s: seq<char>, whole: nat, hundredths: nat): real
    requires whole <= |s| && hundredths <= |s|
  {
    Atoi(s[whole..]) as real + Atoi(s[hundredths..]) as real / 100.0
  }

  /** The two values the parser returns. */
  predicate Reads(p: Parsed, az: real, el: real) {
    && 2 <= p.n2 <= |p.text| && p.n3 <= |p.text| && p.n4 <= |p.text|
    && Number(p.text, 2, p.n2) == az && Number(p.text, p.n3, p.n4) == el
  }

  /** One of the parser's three loops and the assignments after it. */
  method SkipAndBlank(msg: array<char>, from: nat, l: nat, stop: set<char>) returns (next: nat)
    requires l <= msg.Length && Scan(msg[..], from, l, stop) < msg.Length
    modifies msg
    ensures next == Scan(old(msg[..]), from, l, stop) + 1
    ensures msg[..] == Blank(old(msg[..]), from, l, stop)
  {
    var i := from;
    while i < l && msg[i] !in stop
      invariant from <= i && (i <= l || i == from)
      invariant Scan(msg[..], from, l, stop) == Scan(msg[..], i, l, stop)
      invariant msg[..] == old(msg[..])
    {
      i := i + 1;
    }
    msg[i] := '_';
    next := i + 1;
  }

  method CutInPlace(msg: array<char>, l: nat) returns (n2: nat, n3: nat, n4: nat)
    requires CutInside(msg[..], l)
    modifies msg
    ensures Parsed(msg[..], n2, n3, n4) == CutUp(old(msg[..]), l)
  {
    ghost var s := msg[..];
    n2 := SkipAndBlank(msg, 2, l, DECIMAL);
    ghost var s1 := msg[..];
    ScanBehind(s, n2 - 1, n2, l, BLANK);
    n3 := SkipAndBlank(msg, n2, l, BLANK);
    ScanBehind(s, n2 - 1, n3, l, DECIMAL);
    ScanBehind(s1, n3 - 1, n3, l, DECIMAL);
    n4 := SkipAndBlank(msg, n3, l, DECIMAL);
  }

  /** The parser, overwriting the separators in place. */
  method ExtractNumbers(msg: array<char>) returns (az: real, el: real, ok: bool)
    requires '\0' in msg[..] && CutInside(msg[..], Length(msg[..]))
    modifies msg
    ensures var l := Length(old(msg[..]));
            var p := CutUp(old(msg[..]), l);
            msg[..] == p.text && Reads(p, az, el) && ok == Accepts(p, l)
  {
    var l := StrLen(msg);
    var n2, n3, n4 := CutInPlace(msg, l);
    az := Number(msg[..], 2, n2);
    el := Number(msg[..], n3, n4);
    ok := n4 != l;
  }

  lemma {:induction false} ScanFinds(s: seq<char>, i: nat, l: nat, stop: set<char>, j: nat)
    requires l <= |s| && i <= j < l
    requires s[j] in stop && forall k | i <= k < j :: s[k] !in stop
    ensures Scan(s, i, l, stop) == j
    decreases j - i
  {
    if i == j {
    } else {
      ScanFinds(s, i + 1, l, stop, j);
    }
  }

  // ----- Printed commands

  /** A search over a field that ends at its separator. */
  lemma BlankField(front: string, field: string, x: char, tail: string, l: nat, stop: set<char>)
    requires x in stop && forall k | 0 <= k < |field| :: field[k] !in stop
    requires |front| + |field| < l < |front| + |field| + 1 + |tail|
    ensures var s := front + (field + ([x] + tail));
            && Scan(s, |front|, l, stop) == |front| + |field|
            && Blank(s, |front|, l, stop) == (front + field + "_") + tail
  {
    var s := front + (field + ([x] + tail));
    ScanFinds(s, |front|, l, stop, |front| + |field|);
  }

  /** The four numbers of a message, with x, y and z between them. */
  function Layout(a: string, x: char, b: string, y: char, c: string, z: char, d: string): string {
    "P " + (a + ([x] + (b + ([y] + (c + ([z] + d))))))
  }

  /** How a message laid out like this is cut up; d is all that follows the third separator. */
  lemma LayoutCutUp(a: string, x: char, b: string, c: string, z: char, d: string, l: nat)
    requires x in DECIMAL && z in DECIMAL
    requires AllDigits(a) && AllDigits(b) && AllDigits(c)
    requires 5 + |a| + |b| + |c| < l && l < 5 + |a| + |b| + |c| + |d|
    ensures CutInside(Layout(a, x, b, ' ', c, z, d), l)
    ensures CutUp(Layout(a, x, b, ' ', c, z, d), l)
         == Parsed(Layout(a, '_', b, '_', c, '_', d), 3 + |a|, 4 + |a| + |b|, 5 + |a| + |b| + |c|)
  {
    LayoutPositions(a, x, b, c, z, d, l);
    var f2 := "P " + a + "_";
    var f3 := f2 + b + "_";
    var t2 := c + ([z] + d);
    var s := Layout(a, x, b, ' ', c, z, d);
    var s1 := f2 + (b + ([' '] + t2));
    var s2 := f3 + t2;
    var s3 := f3 + c + "_" + d;
    assert Cut(s, 2, l, DECIMAL, 2 + |a|, s1) by { BlankField("P ", a, x, b + ([' '] + t2), l, DECIMAL); }
    assert Cut(s1, 3 + |a|, l, BLANK, 3 + |a| + |b|, s2) by { BlankField(f2, b, ' ', t2, l, BLANK); }
    assert Cut(s2, 4 + |a| + |b|, l, DECIMAL, 4 + |a| + |b| + |c|, s3) by { BlankField(f3, c, z, d, l, DECIMAL); }
    LayoutOfParts(a, b, c, d);
    CutUpByCuts(s, l, s1, s2, s3, 2 + |a|, 3 + |a| + |b|, 4 + |a| + |b| + |c|);
  }

  /** A search from i on stops at j, and blanking that gives t. */
  predicate Cut(s: seq<char>, i: nat, l: nat, stop: set<char>, j: nat, t: seq<char>) {
    l <= |s| && Scan(s, i, l, stop) == j < |s| && t == s[j := '_']
  }

  lemma CutUpByCuts(s: seq<char>, l: nat, s1: seq<char>, s2: seq<char>, s3: seq<char>, i: nat, j: nat, k: nat)
    requires CutInside(s, l)
    requires Cut(s, 2, l, DECIMAL, i, s1) && Cut(s1, i + 1, l, BLANK, j, s2) && Cut(s2, j + 1, l, DECIMAL, k, s3)
    ensures CutUp(s, l) == Parsed(s3, i + 1, j + 1, k + 1)
  {}

  lemma LayoutPositions(a: string, x: char, b: string, c: string, z: char, d: string, l: nat)
    requires x in DECIMAL && z in DECIMAL
    requires AllDigits(a) && AllDigits(b) && AllDigits(c)
    requires 5 + |a| + |b| + |c| < l && l < 5 + |a| + |b| + |c| + |d|
    ensures CutInside(Layout(a, x, b, ' ', c, z, d), l)
  {
    var s := Layout(a, x, b, ' ', c, z, d);
    var i, j, k := 2 + |a|, 3 + |a| + |b|, 4 + |a| + |b| + |c|;
    ScanFinds(s, 2, l, DECIMAL, i);
    ScanFinds(s, i + 1, l, BLANK, j);
    ScanFinds(s, j + 1, l, DECIMAL, k);
  }

  lemma LayoutOfParts(a: string, b: string, c: string, d: string)
    ensures ("P " + a + "_" + b + "_" + c + "_") + d == Layout(a, '_', b, '_', c, '_', d)
  {}

  predicate AllDigits(s: string) { forall k | 0 <= k < |s| :: IsDigit(s[k]) }

  lemma SuffixAfter(front: string, tail: string)
    ensures (front + tail)[|front|..] == tail
  {}

  /** Where the four numbers of a blanked message begin. */
  lemma LayoutSuffixes(a: string, b: string, c: string, d: string)
    ensures var s := Layout(a, '_', b, '_', c, '_', d);
            && |s| == 5 + |a| + |b| + |c| + |d|
            && s[2..] == a + (['_'] + (b + (['_'] + (c + (['_'] + d)))))
            && s[3 + |a|..] == b + (['_'] + (c + (['_'] + d)))
            && s[4 + |a| + |b|..] == c + (['_'] + d)
            && s[5 + |a| + |b| + |c|..] == d
  {
    var s := Layout(a, '_', b, '_', c, '_', d);
    var t1 := b + (['_'] + (c + (['_'] + d)));
    var t2 := c + (['_'] + d);
    SuffixAfter("P ", a + (['_'] + t1));
    assert s == ("P " + a + "_") + t1;
    SuffixAfter("P " + a + "_", t1);
    assert s == ("P " + a + "_" + b + "_") + t2;
    SuffixAfter("P " + a + "_" + b + "_", t2);
    LayoutOfParts(a, b, c, d);
    SuffixAfter("P " + a + "_" + b + "_" + c + "_", d);
  }

  /** A position in hundredths of a degree, printed with two decimals, and what follows it. */
  function Command(az: nat, x: char, el: nat, z: char, rest: string): string {
    Layout(Print(az / 100), x, Fixed(az % 100, 2), ' ', Print(el / 100), z, Fixed(el % 100, 2) + rest)
  }

  /**
   * Printing a position and parsing it recovers it, with point or comma, with
   * anything behind it that does not continue the last number.
   */
  lemma PositionRoundTrip(az: nat, x: char, el: nat, z: char, rest: string, l: nat)
    requires (x == '.' || x == ',') && (z == '.' || z == ',') && EndsNumber(rest)
    requires |Command(az, x, el, z, rest)| - |rest| <= l && l < |Command(az, x, el, z, rest)|
    ensures CutInside(Command(az, x, el, z, rest), l)
    ensures var p := CutUp(Command(az, x, el, z, rest), l);
            Accepts(p, l) && Reads(p, az as real / 100.0, el as real / 100.0)
  {
    var a, b, c, d := Print(az / 100), Fixed(az % 100, 2), Print(el / 100), Fixed(el % 100, 2) + rest;
    LayoutLength(a, x, b, c, z, d);
    var t2 := ['_'] + (c + (['_'] + d));
    Powers();
    AtoiPrint(az / 100, ['_'] + (b + t2));
    AtoiFixed(az % 100, 2, t2);
    AtoiPrint(el / 100, ['_'] + d);
    AtoiFixed(el % 100, 2, rest);
    PartsParsed(a, x, b, c, z, d, l, az / 100, az % 100, el / 100, el % 100);
    Hundredths(az);
    Hundredths(el);
  }

  lemma LayoutLength(a: string, x: char, b: string, c: string, z: char, d: string)
    ensures |Layout(a, x, b, ' ', c, z, d)| == 5 + |a| + |b| + |c| + |d|
  {}

  /** The parser's results on a message, in terms of what its four numbers read as. */
  lemma PartsParsed(a: string, x: char, b: string, c: string, z: char, d: string, l: nat,
                    n1: int, n2: int, n3: int, n4: int)
    requires x in DECIMAL && z in DECIMAL
    requires AllDigits(a) && AllDigits(b) && AllDigits(c)
    requires 5 + |a| + |b| + |c| < l && l < 5 + |a| + |b| + |c| + |d|
    requires |Layout(a, x, b, ' ', c, z, d)| == 5 + |a| + |b| + |c| + |d|
    requires Atoi(a + (['_'] + (b + (['_'] + (c + (['_'] + d)))))) == n1
    requires Atoi(b + (['_'] + (c + (['_'] + d)))) == n2
    requires Atoi(c + (['_'] + d)) == n3 && Atoi(d) == n4
    ensures CutInside(Layout(a, x, b, ' ', c, z, d), l)
    ensures var p := CutUp(Layout(a, x, b, ' ', c, z, d), l);
            Accepts(p, l) && Reads(p, n1 as real + n2 as real / 100.0, n3 as real + n4 as real / 100.0)
  {
    PartsRead(a, b, c, d);
    LayoutCutUp(a, x, b, c, z, d, l);
  }

  lemma PartsRead(a: string, b: string, c: string, d: string)
    ensures Reads(Parsed(Layout(a, '_', b, '_', c, '_', d), 3 + |a|, 4 + |a| + |b|, 5 + |a| + |b| + |c|),
                  Atoi(a + (['_'] + (b + (['_'] + (c + (['_'] + d)))))) as real
                  + Atoi(b + (['_'] + (c + (['_'] + d)))) as real / 100.0,
                  Atoi(c + (['_'] + d)) as real + Atoi(d) as real / 100.0)
  {
    LayoutSuffixes(a, b, c, d);
    ReadsSuffixes(Parsed(Layout(a, '_', b, '_', c, '_', d), 3 + |a|, 4 + |a| + |b|, 5 + |a| + |b| + |c|),
                  a + (['_'] + (b + (['_'] + (c + (['_'] + d))))), b + (['_'] + (c + (['_'] + d))),
                  c + (['_'] + d), d);
  }

  lemma ReadsSuffixes(p: Parsed, s1: string, s2: string, s3: string, s4: string)
    requires 2 <= p.n2 <= |p.text| && p.n3 <= |p.text| && p.n4 <= |p.text|
    requires p.text[2..] == s1 && p.text[p.n2..] == s2 && p.text[p.n3..] == s3 && p.text[p.n4..] == s4
    ensures Reads(p, Atoi(s1) as real + Atoi(s2) as real / 100.0, Atoi(s3) as real + Atoi(s4) as real / 100.0)
  {}

  lemma Hundredths(n: nat)
    ensures (n / 100) as real + (n % 100) as real / 100.0 == n as real / 100.0
  {
    assert n == 100 * (n / 100) + n % 100;
  }

  // ----- What is accepted

  /** Only the hundredths of the second number are missing; i and j are the separators before. */
  predicate EndsAtThirdSeparator(s: seq<char>, l: nat, i: nat, j: nat)
    requires l <= |s|
  {
    && 2 <= i < j < l - 1
    && s[i] in {'.', ','} && (forall k | 2 <= k < i :: s[k] !in {'.', ','})
    && s[j] == ' ' && (forall k | i < k < j :: s[k] != ' ')
    && s[l - 1] in {'.', ','} && (forall k | j < k < l - 1 :: s[k] !in {'.', ','})
  }

  /** The verdict of the parser, which does not depend on the room behind the message. */
  predicate Refused(s: seq<char>, l: nat)
    requires l <= |s|
  {
    Fourth(s, l) == l
  }

  /** Exactly those messages are refused. */
  lemma RefusedIff(s: seq<char>, l: nat)
    requires l <= |s|
    ensures Refused(s, l) <==> exists i: nat, j: nat :: EndsAtThirdSeparator(s, l, i, j)
    ensures CutInside(s, l) ==> (Accepts(CutUp(s, l), l) <==> !Refused(s, l))
  {
    if Refused(s, l) {
      ScanStopsAt(s, 2, l, DECIMAL);
      ScanStopsAt(s, Second(s, l), l, BLANK);
      ScanStopsAt(s, Third(s, l), l, DECIMAL);
      assert EndsAtThirdSeparator(s, l, Second(s, l) - 1, Third(s, l) - 1);
    }
    if i: nat, j: nat :| EndsAtThirdSeparator(s, l, i, j) {
      ScanFinds(s, 2, l, DECIMAL, i);
      ScanFinds(s, i + 1, l, BLANK, j);
      ScanFinds(s, j + 1, l, DECIMAL, l - 1);
    }
  }

  lemma {:induction false} ScanStopsAt(s: seq<char>, i: nat, l: nat, stop: set<char>)
    requires l <= |s|
    ensures var j := Scan(s, i, l, stop);
            (j >= l || s[j] in stop) && forall k | i <= k < j :: s[k] !in stop
    decreases l - i
  {
    if i >= l || s[i] in stop {
    } else {
      ScanStopsAt(s, i + 1, l, stop);
    }
  }

  /** So a message without any separator is accepted. */
  lemma NoSeparatorAccepted(s: seq<char>, l: nat)
    requires l <= |s|
    requires forall k | 2 <= k < l :: s[k] != '.' && s[k] != ','
    ensures !Refused(s, l)
  {
    RefusedIff(s, l);
  }

  // ----- Degrees to encoder counts

  /** Counts per degree as the source has them, truncated to a whole count. */
  function Counts(degrees: real): int { (degrees * 182.044).Floor }

  /** Every azimuth from 0 to 360 degrees has a 16-bit count, in order and less than a count away. */
  lemma CountsInRange(a: real, b: real)
    requires 0.0 <= a <= b <= 360.0
    ensures 0 <= Counts(a) <= Counts(b) <= 65535
    ensures 0.0 <= a - Counts(a) as real / 182.044 < 1.0 / 182.044
  {
    assert a * 182.044 <= b * 182.044 <= 65535.84;
  }
}
