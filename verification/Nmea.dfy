/** Field extraction from GGA and RMF sentences (gps.c). */
module Nmea {
  import opened MachineInts
  import opened Decimal

  /** The receiver's state; angles in exact degrees where the source has floats. */
  datatype Fix = Fix(time: U32, lat: real, lon: real, satsSol: U8, alt: I16, date: U32)

  function From(s: string, k: nat): string { if k <= |s| then s[k..] else "" }

  predicate HasAt(s: string, k: nat, c: char) { k < |s| && s[k] == c }

  function Degrees(degMin: int, min: int, frac: int, positive: bool): real {
    var value := TruncDiv(degMin, 100) as real + (min as real + frac as real / 10000.0) / 60.0;
    if positive then value else -value
  }

  /** The fields at their fixed columns. */
  function ParseGga(f: Fix, s: string): Fix {
    f.(time := WrapU32(Atoi(From(s, 7))),
       lat := Degrees(Atoi(From(s, 14)), Atoi(From(s, 16)), Atoi(From(s, 19)), HasAt(s, 24, 'N')),
       lon := Degrees(Atoi(From(s, 26)), Atoi(From(s, 29)), Atoi(From(s, 32)), HasAt(s, 37, 'E')),
       satsSol := Atoi(From(s, 41)) % 0x100,
       alt := WrapI16(Atoi(From(s, 48))))
  }

  function Parse(f: Fix, s: string): Fix {
    if "$GPGGA" <= s then ParseGga(f, s)
    else if "$PGRMF" <= s then f.(date := WrapU32(Atoi(From(s, 18))))
    else f
  }

  class Receiver {
    var mDate: U32
    var mTime: U32
    var mLat: real
    var mLon: real
    var mAlt: I16
    var mSatsSol: U8

    ghost function View(): Fix
      reads this
    {
      Fix(mTime, mLat, mLon, mSatsSol, mAlt, mDate)
    }

    /**
     * `str` is the line buffer as a whole: the terminated sentence and, behind
     * it, what earlier lines left there, which is what columns beyond the end
     * of a short sentence read.
     */
    method GpsParse(str: seq<char>)
      requires |str| > 48
      modifies this
      ensures View() == Parse(old(View()), str)
    {
      if "$GPGGA" <= str {
        mTime := WrapU32(Atoi(From(str, 7)));
        var north := HasAt(str, 24, 'N');
        mLat := Degrees(Atoi(From(str, 14)), Atoi(From(str, 16)), Atoi(From(str, 19)), north);
        var east := HasAt(str, 37, 'E');
        mLon := Degrees(Atoi(From(str, 26)), Atoi(From(str, 29)), Atoi(From(str, 32)), east);
        mSatsSol := Atoi(From(str, 41)) % 0x100;
        mAlt := WrapI16(Atoi(From(str, 48)));
      }
      if "$PGRMF" <= str {
        assert str[1] == 'P' && str[2] == 'G';
        mDate := WrapU32(Atoi(From(str, 18)));
      }
    }
  }

  // ----- Sentences in the layout the parser expects

  datatype Angle = Angle(deg: nat, min: nat, frac: nat) {
    predicate Valid(degDigits: nat) { deg < Power10(degDigits) && min < 100 && frac < 10000 }

    function Value(): real { deg as real + (min as real + frac as real / 10000.0) / 60.0 }

    function Text(degDigits: nat): string { Fixed(deg, degDigits) + (Fixed(min, 2) + ("." + Fixed(frac, 4))) }
  }

  /** `rest` is everything after the integer part of the altitude. */
  datatype Gga = Gga(time: nat, lat: Angle, north: bool, lon: Angle, east: bool, quality: char,
                     sats: nat, hdop: string, alt: I16, rest: string)
  {
    predicate Valid() {
      && time < 1000000 && lat.Valid(2) && lon.Valid(3) && sats < 100 && |hdop| == 3 && EndsNumber(rest)
    }

    // The sentence from the given column on.

    function From48(): string { PrintSigned(alt) + rest }

    function From41(): string { Fixed(sats, 2) + ("," + hdop + "," + From48()) }

    function From37(): string { [if east then 'E' else 'W'] + ("," + [quality] + "," + From41()) }

    function From26(): string { lon.Text(3) + ("," + From37()) }

    function From24(): string { [if north then 'N' else 'S'] + ("," + From26()) }

    function From14(): string { lat.Text(2) + ("," + From24()) }

    function From7(): string { Fixed(time, 6) + ("," + From14()) }

    function Sentence(): string { "$GPGGA," + From7() }
  }

  lemma FromConcat(a: string, b: string, k: nat)
    ensures From(a + b, |a| + k) == From(b, k)
  {
    if k <= |b| {
      assert (a + b)[|a| + k..] == b[k..];
    }
  }

  /** The three numbers of an angle, each read from its own column. */
  lemma AngleColumns(a: Angle, degDigits: nat, rest: string)
    requires a.Valid(degDigits) && degDigits > 0 && EndsNumber(rest)
    ensures var s := a.Text(degDigits) + rest;
            && Atoi(From(s, 0)) == 100 * a.deg + a.min
            && Atoi(From(s, degDigits)) == a.min
            && Atoi(From(s, degDigits + 3)) == a.frac
  {
    var s := a.Text(degDigits) + rest;
    var deg, min, frac := Fixed(a.deg, degDigits), Fixed(a.min, 2), Fixed(a.frac, 4);
    var dotOn := "." + (frac + rest);
    assert s == deg + (min + dotOn);
    assert From(s, 0) == s;
    DegreesAndMinutes(a.deg, degDigits, a.min, dotOn);
    assert From(s, degDigits) == min + dotOn by { FromConcat(deg, min + dotOn, 0); }
    assert s == (deg + min + ".") + (frac + rest);
    assert From(s, degDigits + 3) == frac + rest by { FromConcat(deg + min + ".", frac + rest, 0); }
    Powers();
    AtoiFixed(a.min, 2, dotOn);
    AtoiFixed(a.frac, 4, rest);
  }

  lemma DegreesAndMinutes(deg: nat, degDigits: nat, min: nat, rest: string)
    requires degDigits > 0 && deg < Power10(degDigits) && min < 100 && EndsNumber(rest)
    ensures Atoi(Fixed(deg, degDigits) + (Fixed(min, 2) + rest)) == 100 * deg + min
  {
    var t := Fixed(min, 2) + rest;
    AtoiStartsWithDigit(Fixed(deg, degDigits) + t);
    ReadFixedFirst(deg, degDigits, t);
    ReadTwo(min, deg, rest);
  }

  /** s from column `at` on is `here`. */
  ghost predicate Column(s: string, at: nat, here: string) {
    forall k: nat :: From(s, at + k) == From(here, k)
  }

  /** From one column to the next. */
  lemma NextColumn(s: string, at: nat, here: string, part: string, next: string)
    requires Column(s, at, here)
    requires here == part + next
    ensures Column(s, at + |part|, next)
  {
    forall k: nat
      ensures From(s, at + |part| + k) == From(next, k)
    {
      FromConcat(part, next, k);
      assert From(s, at + (|part| + k)) == From(here, |part| + k);
    }
  }

  // Each suffix of the sentence is at the column in its name.

  lemma Column7(g: Gga)
    ensures Column(g.Sentence(), 7, g.From7())
  {
    forall k: nat
      ensures From(g.Sentence(), 7 + k) == From(g.From7(), k)
    {
      FromConcat("$GPGGA,", g.From7(), k);
    }
  }

  lemma Column14(g: Gga)
    ensures Column(g.Sentence(), 14, g.From14())
  {
    Column7(g);
    NextColumn(g.Sentence(), 7, g.From7(), Fixed(g.time, 6) + ",", g.From14());
  }

  lemma Column24(g: Gga)
    ensures Column(g.Sentence(), 24, g.From24())
  {
    Column14(g);
    NextColumn(g.Sentence(), 14, g.From14(), g.lat.Text(2) + ",", g.From24());
  }

  lemma Column26(g: Gga)
    ensures Column(g.Sentence(), 26, g.From26())
  {
    Column24(g);
    NextColumn(g.Sentence(), 24, g.From24(), [if g.north then 'N' else 'S'] + ",", g.From26());
  }

  lemma Column37(g: Gga)
    ensures Column(g.Sentence(), 37, g.From37())
  {
    Column26(g);
    NextColumn(g.Sentence(), 26, g.From26(), g.lon.Text(3) + ",", g.From37());
  }

  lemma Column41(g: Gga)
    ensures Column(g.Sentence(), 41, g.From41())
  {
    Column37(g);
    NextColumn(g.Sentence(), 37, g.From37(), [if g.east then 'E' else 'W'] + "," + [g.quality] + ",", g.From41());
  }

  lemma Column48(g: Gga)
    requires |g.hdop| == 3
    ensures Column(g.Sentence(), 48, g.From48())
  {
    Column41(g);
    NextColumn(g.Sentence(), 41, g.From41(), Fixed(g.sats, 2) + "," + g.hdop + ",", g.From48());
  }

  lemma ColumnAt(s: string, at: nat, here: string, k: nat)
    requires Column(s, at, here)
    ensures From(s, at + k) == From(here, k)
  {}

  // Each number and hemisphere is read from its column.

  lemma TimeField(g: Gga)
    requires g.Valid()
    ensures Atoi(From(g.Sentence(), 7)) == g.time
  {
    Column7(g);
    ColumnAt(g.Sentence(), 7, g.From7(), 0);
    Powers();
    AtoiFixed(g.time, 6, "," + g.From14());
  }

  lemma AngleFields(s: string, at: nat, here: string, a: Angle, degDigits: nat, rest: string)
    requires Column(s, at, here)
    requires a.Valid(degDigits) && degDigits > 0 && EndsNumber(rest)
    requires here == a.Text(degDigits) + rest
    ensures Atoi(From(s, at)) == 100 * a.deg + a.min
    ensures Atoi(From(s, at + degDigits)) == a.min
    ensures Atoi(From(s, at + degDigits + 3)) == a.frac
  {
    AngleColumns(a, degDigits, rest);
    ColumnAt(s, at, here, 0);
    ColumnAt(s, at, here, degDigits);
    ColumnAt(s, at, here, degDigits + 3);
  }

  lemma HemisphereField(s: string, at: nat, here: string, c: char, rest: string)
    requires Column(s, at, here) && here == [c] + rest
    ensures at < |s| && s[at] == c
  {
    ColumnAt(s, at, here, 0);
    assert From(s, at)[0] == c;
  }

  lemma SatsField(g: Gga)
    requires g.Valid()
    ensures Atoi(From(g.Sentence(), 41)) == g.sats
  {
    Column41(g);
    ColumnAt(g.Sentence(), 41, g.From41(), 0);
    Powers();
    AtoiFixed(g.sats, 2, "," + g.hdop + "," + g.From48());
  }

  lemma AltField(g: Gga)
    requires g.Valid()
    ensures Atoi(From(g.Sentence(), 48)) == g.alt
  {
    Column48(g);
    ColumnAt(g.Sentence(), 48, g.From48(), 0);
    AtoiSigned(g.alt, g.rest);
  }

  /** Latitude from its three columns and its hemisphere. */
  lemma LatField(g: Gga)
    requires g.Valid()
    ensures var s := g.Sentence();
            Degrees(Atoi(From(s, 14)), Atoi(From(s, 16)), Atoi(From(s, 19)), HasAt(s, 24, 'N'))
            == (if g.north then g.lat.Value() else -g.lat.Value())
  {
    var s := g.Sentence();
    Column14(g);
    AngleFields(s, 14, g.From14(), g.lat, 2, "," + g.From24());
    Column24(g);
    HemisphereField(s, 24, g.From24(), if g.north then 'N' else 'S', "," + g.From26());
    DegreesValue(g.lat, g.north);
  }

  lemma LonField(g: Gga)
    requires g.Valid()
    ensures var s := g.Sentence();
            Degrees(Atoi(From(s, 26)), Atoi(From(s, 29)), Atoi(From(s, 32)), HasAt(s, 37, 'E'))
            == (if g.east then g.lon.Value() else -g.lon.Value())
  {
    var s := g.Sentence();
    Column26(g);
    AngleFields(s, 26, g.From26(), g.lon, 3, "," + g.From37());
    Column37(g);
    HemisphereField(s, 37, g.From37(), if g.east then 'E' else 'W', "," + [g.quality] + "," + g.From41());
    DegreesValue(g.lon, g.east);
  }

  lemma DegreesValue(a: Angle, positive: bool)
    requires a.min < 100
    ensures Degrees(100 * a.deg + a.min, a.min, a.frac, positive) == (if positive then a.Value() else -a.Value())
  {
    assert TruncDiv(100 * a.deg + a.min, 100) == a.deg;
  }

  /** Parsing a printed sentence recovers every field. */
  lemma GgaRoundTrip(f: Fix, g: Gga)
    requires g.Valid()
    ensures Parse(f, g.Sentence())
         == Fix(g.time,
                if g.north then g.lat.Value() else -g.lat.Value(),
                if g.east then g.lon.Value() else -g.lon.Value(),
                g.sats, g.alt, f.date)
  {
    TimeField(g);
    LatField(g);
    LonField(g);
    SatsField(g);
    AltField(g);
    assert "$GPGGA" <= g.Sentence();
    FixFromFields(f, g.Sentence(), g.time, g.sats, g.alt);
  }

  lemma FixFromFields(f: Fix, s: string, time: nat, sats: nat, alt: I16)
    requires "$GPGGA" <= s
    requires Atoi(From(s, 7)) == time < 1000000 && Atoi(From(s, 41)) == sats < 100 && Atoi(From(s, 48)) == alt
    ensures Parse(f, s)
         == Fix(time,
                Degrees(Atoi(From(s, 14)), Atoi(From(s, 16)), Atoi(From(s, 19)), HasAt(s, 24, 'N')),
                Degrees(Atoi(From(s, 26)), Atoi(From(s, 29)), Atoi(From(s, 32)), HasAt(s, 37, 'E')),
                sats, alt, f.date)
  {
    SmallFields(time, sats, alt);
  }

  lemma SmallFields(time: nat, sats: nat, alt: I16)
    requires time < 1000000 && sats < 100
    ensures WrapU32(time) == time && sats % 0x100 == sats && WrapI16(alt) == alt
  {}

  // ----- The date sentence

  /** Week, seconds of the week and date, each in its fixed width. */
  function Rmf(week: nat, seconds: nat, date: nat, rest: string): string {
    "$PGRMF," + (Fixed(week, 3) + ("," + (Fixed(seconds, 6) + ("," + (Fixed(date, 6) + rest)))))
  }

  /** Parsing a printed date sentence recovers the date and changes nothing else. */
  lemma RmfRoundTrip(f: Fix, week: nat, seconds: nat, date: nat, rest: string)
    requires date < 1000000 && EndsNumber(rest)
    ensures Parse(f, Rmf(week, seconds, date, rest)) == f.(date := date)
  {
    var s := Rmf(week, seconds, date, rest);
    var front := "$PGRMF," + Fixed(week, 3) + "," + Fixed(seconds, 6) + ",";
    var tail := Fixed(date, 6) + rest;
    assert s == front + tail;
    assert From(s, 18) == tail by { FromConcat(front, tail, 0); }
    Powers();
    AtoiFixed(date, 6, rest);
    assert s[1] == 'P' && s[2] == 'G' && s[3] == 'R';
    assert "$PGRMF" <= s && !("$GPGGA" <= s);
    SmallFields(date, 0, 0);
  }
}
