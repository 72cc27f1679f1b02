/** GTFS clock times `H:MM:SS`, counted from the start of the service day
    (hours may reach 24 and beyond for trips running past midnight), and the
    `(h, m, s)` tuple key the timetable view sorts them by. */
module GtfsTime {
  import opened Common

  /** `parse_gtfs_time`: the offset in seconds from the service day's
      midnight, or `None` where Python's `int()` or the three-way unpacking
      raises. */
  function ParseGtfsTime(s: string): (r: Option<int>)
    ensures r.Some? ==> |Split(s, ':')| == 3
  {
    match TimeKey(s)
    case Some(k) => if |k| == 3 then Some(k[0] * 3600 + k[1] * 60 + k[2]) else None
    case None => None
  }

  /** The canonical text of a clock time: unpadded hours, two-digit minutes
      and seconds. */
  function FormatGtfsTime(h: nat, m: nat, s: nat): string
    requires m < 60 && s < 60
  {
    Join([NatToString(h), TwoDigits(m), TwoDigits(s)], ':')
  }

  lemma DigitsHaveNoColon(s: string)
    requires AllDigits(s)
    ensures ':' !in s
  {
  }

  /** Parsing a formatted time gives its offset, hours past 24 included. */
  lemma ParseFormatted(h: nat, m: nat, s: nat)
    requires m < 60 && s < 60
    ensures ParseGtfsTime(FormatGtfsTime(h, m, s)) == Some(h * 3600 + m * 60 + s)
  {
    KeyOfFormatted(h, m, s);
    TimeOfKey(FormatGtfsTime(h, m, s), h, m, s);
  }

  /** The sort key of a formatted time is its hours, minutes and seconds. */
  lemma KeyOfFormatted(h: nat, m: nat, s: nat)
    requires m < 60 && s < 60
    ensures TimeKey(FormatGtfsTime(h, m, s)) == Some([h, m, s])
  {
    SplitFormatted(h, m, s);
    ParseFormattedParts(h, m, s);
    TimeKeyOfParts(FormatGtfsTime(h, m, s), [NatToString(h), TwoDigits(m), TwoDigits(s)]);
  }

  /** The parts of a formatted time are its three numerals. */
  lemma SplitFormatted(h: nat, m: nat, s: nat)
    requires m < 60 && s < 60
    ensures Split(FormatGtfsTime(h, m, s), ':') == [NatToString(h), TwoDigits(m), TwoDigits(s)]
  {
    var parts := [NatToString(h), TwoDigits(m), TwoDigits(s)];
    NatToStringDigits(h);
    NoColonInParts(parts);
    SplitJoin(parts, ':');
  }

  /** `int()` reads the three numerals back. */
  lemma ParseFormattedParts(h: nat, m: nat, s: nat)
    requires m < 60 && s < 60
    ensures ParseAll([NatToString(h), TwoDigits(m), TwoDigits(s)]) == Some([h, m, s])
  {
    ParseNatToString(h);
    ParseTwoDigits(m);
    ParseTwoDigits(s);
    ParseThree([NatToString(h), TwoDigits(m), TwoDigits(s)], h, m, s);
  }

  /** The sort key reads the parts the text splits into. */
  lemma TimeKeyOfParts(t: string, parts: seq<string>)
    requires Split(t, ':') == parts
    ensures TimeKey(t) == ParseAll(parts)
  {
  }

  /** A three-number key gives the offset `h*3600 + m*60 + s`. */
  lemma TimeOfKey(t: string, h: int, m: int, s: int)
    requires TimeKey(t) == Some([h, m, s])
    ensures ParseGtfsTime(t) == Some(h * 3600 + m * 60 + s)
  {
    var k := [h, m, s];
    assert k[0] == h && k[1] == m && k[2] == s;
  }

  /** Three parts that `int()` reads give the key of their three values. */
  lemma {:induction false} ParseThree(parts: seq<string>, h: int, m: int, s: int)
    requires |parts| == 3
    requires ParseInt(parts[0]) == Some(h) && ParseInt(parts[1]) == Some(m) && ParseInt(parts[2]) == Some(s)
    ensures ParseAll(parts) == Some([h, m, s])
  {
    var p2, p1 := parts[2..], parts[1..];
    assert p2[0] == parts[2] && p2[1..] == [];
    ParseAllCons(p2, s, []);
    assert p1[0] == parts[1] && p1[1..] == p2;
    assert [s] + [] == [s];
    ParseAllCons(p1, m, [s]);
    assert parts[1..] == p1 && [m] + [s] == [m, s];
    ParseAllCons(parts, h, [m, s]);
    assert [h] + [m, s] == [h, m, s];
  }

  /** One more part that reads puts its value in front of the rest. */
  lemma ParseAllCons(parts: seq<string>, v: int, rest: seq<int>)
    requires |parts| >= 1 && ParseInt(parts[0]) == Some(v) && ParseAll(parts[1..]) == Some(rest)
    ensures ParseAll(parts) == Some([v] + rest)
  {
  }

  /** A time parses iff its text has exactly three colon-separated parts
      that are all integers, and then it is `h*3600 + m*60 + s` of them. */
  lemma ParseGtfsTimeSpec(t: string)
    ensures ParseGtfsTime(t).Some? <==> |Split(t, ':')| == 3 && AllParse(Split(t, ':'))
    ensures ParseGtfsTime(t).Some? ==>
      (ParseGtfsTime(t).value ==
       ParseInt(Split(t, ':')[0]).value * 3600 + ParseInt(Split(t, ':')[1]).value * 60 + ParseInt(Split(t, ':')[2]).value)
  {
    TimeKeySpec(t);
  }

  lemma NoColonInParts(parts: seq<string>)
    requires forall i :: 0 <= i < |parts| ==> AllDigits(parts[i])
    ensures forall i :: 0 <= i < |parts| ==> ':' !in parts[i]
  {
  }


  /** An offset with minutes and seconds below 60 determines its hours,
      minutes and seconds, so formatting and parsing are mutually inverse on
      canonical times. */
  lemma OffsetDeterminesClock(h: nat, m: nat, s: nat, h': nat, m': nat, s': nat)
    requires m < 60 && s < 60 && m' < 60 && s' < 60
    requires h * 3600 + m * 60 + s == h' * 3600 + m' * 60 + s'
    ensures h == h' && m == m' && s == s'
  {
    assert m * 60 + s < 3600 && m' * 60 + s' < 3600;
  }

  /** Texts that are not three colon-separated integers yield no time. */
  lemma ParseEmpty()
    ensures ParseGtfsTime("") == None
  {
    assert Split("", ':') == [""];
  }

  lemma ParseTwoParts()
    ensures ParseGtfsTime("25:10") == None
  {
    SplitJoin(["25", "10"], ':');
    assert Join(["25", "10"], ':') == "25:10";
  }

  /** Three parts, one of which `int()` rejects: no time. */
  lemma ParseBadPart()
    ensures ParseGtfsTime("8:0x:00") == None
  {
    SplitJoin(["8", "0x", "00"], ':');
    assert Join(["8", "0x", "00"], ':') == "8:0x:00";
    var bad := "0x";
    assert !IsPySpace(bad[0]) && StripLeft(bad) == bad;
    assert !IsPySpace(bad[|bad| - 1]) && StripRight(bad) == bad;
    assert !AllDigits(bad) && !AllDigits(bad[1..]);
    assert ParseInt(bad) == None;
    ParseGtfsTimeSpec("8:0x:00");
  }

  // ---------------------------------------------------------------------
  // the (h, m, s) sort key of the timetable view

  /** `tuple(map(int, t.split(':')))`, or `None` where `int()` raises. */
  function TimeKey(t: string): (k: Option<seq<int>>)
    ensures k.Some? ==> |k.value| == |Split(t, ':')|
  {
    ParseAll(Split(t, ':'))
  }

  function ParseAll(parts: seq<string>): (k: Option<seq<int>>)
    ensures k.Some? ==> |k.value| == |parts|
  {
    if parts == [] then Some([])
    else
      var head, tail := ParseInt(parts[0]), ParseAll(parts[1..]);
      if head.Some? && tail.Some? then Some([head.value] + tail.value) else None
  }

  /** Every part reads. */
  ghost predicate AllParse(parts: seq<string>)
  {
    forall i :: 0 <= i < |parts| ==> ParseInt(parts[i]).Some?
  }

  /** `int()` of every part is `None` iff some part raises. */
  lemma {:induction false} ParseAllSome(parts: seq<string>)
    ensures ParseAll(parts).Some? <==> AllParse(parts)
  {
    if parts != [] {
      var tail := parts[1..];
      ParseAllSome(tail);
      var head := ParseInt(parts[0]);
      assert ParseAll(parts).Some? <==> head.Some? && ParseAll(tail).Some?;
      AllParseCons(parts);
    }
  }

  /** All parts read iff the first does and all the others do. */
  lemma AllParseCons(parts: seq<string>)
    requires parts != []
    ensures AllParse(parts) <==> ParseInt(parts[0]).Some? && AllParse(parts[1..])
  {
    if AllParse(parts) {
      AllParseTail(parts);
    }
    if ParseInt(parts[0]).Some? && AllParse(parts[1..]) {
      AllParseFromTail(parts);
    }
  }

  lemma AllParseTail(parts: seq<string>)
    requires parts != [] && AllParse(parts)
    ensures AllParse(parts[1..])
  {
    var tail := parts[1..];
    forall i | 0 <= i < |tail| ensures ParseInt(tail[i]).Some? {
      assert tail[i] == parts[i + 1];
    }
  }

  lemma AllParseFromTail(parts: seq<string>)
    requires parts != [] && ParseInt(parts[0]).Some? && AllParse(parts[1..])
    ensures AllParse(parts)
  {
    var tail := parts[1..];
    forall i | 0 < i < |parts| ensures ParseInt(parts[i]).Some? {
      assert parts[i] == tail[i - 1];
    }
  }

  /** Otherwise it holds one number per part, in order. */
  lemma {:induction false} ParseAllValues(parts: seq<string>)
    requires ParseAll(parts).Some?
    ensures forall i :: 0 <= i < |parts| ==> ParseInt(parts[i]) == Some(ParseAll(parts).value[i])
  {
    if parts != [] {
      var tail := parts[1..];
      ParseAllValues(tail);
      var k, rest := ParseAll(parts).value, ParseAll(tail).value;
      assert k == [ParseInt(parts[0]).value] + rest;
      forall i | 0 < i < |parts| ensures ParseInt(parts[i]) == Some(k[i]) {
        assert k[i] == rest[i - 1] && tail[i - 1] == parts[i];
      }
    }
  }

  /** The sort key is `None` iff some part of the text is not an integer,
      and otherwise holds `int()` of each part in turn. */
  lemma TimeKeySpec(t: string)
    ensures TimeKey(t).Some? <==> AllParse(Split(t, ':'))
    ensures TimeKey(t).Some? ==>
      (|TimeKey(t).value| == |Split(t, ':')|
       && forall i :: 0 <= i < |Split(t, ':')| ==> TimeKey(t).value[i] == ParseInt(Split(t, ':')[i]).value)
  {
    ParseAllSome(Split(t, ':'));
    if TimeKey(t).Some? {
      ParseAllValues(Split(t, ':'));
    }
  }


  /** Python's `<=` on tuples of integers: lexicographic order, a proper
      prefix before its extensions. */
  predicate LexLe(a: seq<int>, b: seq<int>)
  {
    a == [] || (b != [] && (a[0] < b[0] || (a[0] == b[0] && LexLe(a[1..], b[1..]))))
  }

  lemma {:induction false} LexLeTotal(a: seq<int>, b: seq<int>)
    ensures LexLe(a, b) || LexLe(b, a)
  {
    if a != [] && b != [] && a[0] == b[0] {
      LexLeTotal(a[1..], b[1..]);
    }
  }

  lemma {:induction false} LexLeTransitive(a: seq<int>, b: seq<int>, c: seq<int>)
    requires LexLe(a, b) && LexLe(b, c)
    ensures LexLe(a, c)
  {
    if a != [] && b != [] && c != [] && a[0] == b[0] && b[0] == c[0] {
      LexLeTransitive(a[1..], b[1..], c[1..]);
    }
  }

  /** On canonical three-part keys the tuple order is the order of the
      offsets, so sorting by key sorts by time of day. */
  lemma KeyOrderIsTimeOrder(h: int, m: int, s: int, h': int, m': int, s': int)
    requires 0 <= m < 60 && 0 <= s < 60 && 0 <= m' < 60 && 0 <= s' < 60
    ensures LexLe([h, m, s], [h', m', s']) <==> h * 3600 + m * 60 + s <= h' * 3600 + m' * 60 + s'
  {
    var a, b := [h, m, s], [h', m', s'];
    assert a[1..] == [m, s] && b[1..] == [m', s'];
    assert a[1..][1..] == [s] && b[1..][1..] == [s'];
    assert [s][1..] == [] && [s'][1..] == [];
    assert m * 60 + s < 3600 && m' * 60 + s' < 3600;
    if h < h' {
      assert (h + 1) * 3600 <= h' * 3600;
    } else if h' < h {
      assert (h' + 1) * 3600 <= h * 3600;
      assert h' * 3600 + m' * 60 + s' < h * 3600 + m * 60 + s;
      assert !(a[0] < b[0]) && a[0] != b[0];
      assert !LexLe(a, b);
    } else {
      assert LexLe(a, b) == LexLe(a[1..], b[1..]);
      if m < m' {
        assert (m + 1) * 60 <= m' * 60;
      } else if m' < m {
        assert (m' + 1) * 60 <= m * 60;
        assert !LexLe(a[1..], b[1..]);
      } else {
        assert LexLe(a[1..], b[1..]) == LexLe([s], [s']);
        assert LexLe([s][1..], [s'][1..]);
        assert LexLe([s], [s']) == (s <= s');
      }
    }
  }
}
