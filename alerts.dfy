/** Service alerts of the GTFS-Realtime feed, attached to lines: the map
    from a line's composite key `"{short name}-{route type}"` to the texts of
    the alerts about it, each text at most once and in order of first
    arrival. Lines are found from the alert's free text (a mode word and a
    list of line numbers) and from its informed entities (a route, a trip or
    a stop). */
module Alerts {
  import opened Common
  import opened GtfsData

  // ---------------------------------------------------------------------
  // the feed

  /** What an informed entity names; the route takes precedence over the
      trip (only a trip that carries a trip id counts), the trip over the
      stop. */
  datatype InformedEntity = InformedEntity(routeId: Option<string>, tripId: Option<string>, stopId: Option<string>)

  /** An alert as the backend sees it: the plain text of the first
      translation of its description (`None` when there is no description
      or no translation), the (mode word, number list) pairs the line-list
      pattern finds in the alert's text, and its informed entities. The
      pairs are an input independent of `description`: an alert without a
      description has the stock sentence as its text, in which the pattern
      finds nothing, so a faithful input gives it no pairs, but the model
      does not require that. */
  datatype Alert = Alert(description: Option<string>, matches: seq<(string, string)>, informed: seq<InformedEntity>)

  /** A feed entity, which may or may not carry an alert. */
  datatype FeedEntity = FeedEntity(alert: Option<Alert>)

  /** The static tables alerts are matched against. */
  datatype AlertData = AlertData(routes: map<string, Route>, trips: map<string, Trip>, stopToTrips: map<string, seq<string>>)

  const NoDescription: string := "Няма подробно описание."

  /** An alert's text: its description, or the stock sentence. */
  function AlertText(a: Alert): (t: string)
    ensures a.description.None? ==> t == NoDescription
    ensures a.description.Some? ==> t == a.description.value
  {
    match a.description
    case Some(d) => d
    case None => NoDescription
  }

  // ---------------------------------------------------------------------
  // mode words

  /** `str.lower()` on Latin and Cyrillic capitals; other characters are
      left alone. */
  function LowerChar(c: char): char
  {
    if 'A' <= c <= 'Z' then (c as int + 32) as char
    else if '\U{0410}' <= c <= '\U{042F}' then (c as int + 32) as char
    else if '\U{0400}' <= c <= '\U{040F}' then (c as int + 80) as char
    else c
  }

  function ToLower(s: string): (r: string)
    ensures |r| == |s| && forall i :: 0 <= i < |s| ==> r[i] == LowerChar(s[i])
  {
    if s == [] then [] else [LowerChar(s[0])] + ToLower(s[1..])
  }

  /** `s[:n]`. */
  function Take(s: string, n: nat): (r: string)
    ensures |r| <= n && StartsWith(s, r)
    ensures |s| <= n ==> r == s
  {
    if |s| <= n then s else s[..n]
  }

  /** The route-type codes and the lower-case stems of their mode words, in
      the order they are tried. */
  const ModeStems: seq<(string, string)> := [("0", "трамвайн"), ("3", "автобусн"), ("11", "тролейбусн")]

  /** The code of the first stem `prefix` starts with. */
  function FirstCode(prefix: string, stems: seq<(string, string)>): (r: Option<string>)
    ensures r.Some? ==> exists i :: 0 <= i < |stems| && stems[i].0 == r.value && StartsWith(prefix, stems[i].1)
    ensures r.None? ==> forall i :: 0 <= i < |stems| ==> !StartsWith(prefix, stems[i].1)
  {
    if stems == [] then None
    else if StartsWith(prefix, stems[0].1) then Some(stems[0].0)
    else FirstCode(prefix, stems[1..])
  }

  /** The route type a mode word names when its lower-cased first `cut`
      characters are compared with the stems. */
  function ModeCodeCut(word: string, cut: nat): Option<string>
  {
    FirstCode(Take(ToLower(word), cut), ModeStems)
  }

  /** The stems are tried in the order tram, bus, trolleybus. */
  lemma FirstCodeOfStems(prefix: string)
    ensures FirstCode(prefix, ModeStems) ==
      if StartsWith(prefix, "трамвайн") then Some(TramType)
      else if StartsWith(prefix, "автобусн") then Some(BusType)
      else if StartsWith(prefix, "тролейбусн") then Some(TrolleybusType)
      else None
  {
    var s1 := ModeStems[1..];
    var s2 := s1[1..];
    var s3 := s2[1..];
    assert s1 == [("3", "автобусн"), ("11", "тролейбусн")];
    assert s2 == [("11", "тролейбусн")];
    assert s3 == [];
    assert FirstCode(prefix, s3) == None;
    assert FirstCode(prefix, s2) == if StartsWith(prefix, "тролейбусн") then Some(TrolleybusType) else None;
    assert FirstCode(prefix, s1) ==
      if StartsWith(prefix, "автобусн") then Some(BusType) else FirstCode(prefix, s2);
  }

  /** No text starts with two of the stems. */
  lemma StemsExclusive(p: string)
    ensures StartsWith(p, "тролейбусн") ==> !StartsWith(p, "трамвайн") && !StartsWith(p, "автобусн")
    ensures StartsWith(p, "автобусн") ==> !StartsWith(p, "трамвайн")
  {
    if StartsWith(p, "тролейбусн") {
      assert p[..10][0] == 'т' && p[..10][2] == 'о';
      assert p[0] == 'т' && p[2] == 'о';
    }
    if StartsWith(p, "автобусн") {
      assert p[..8][0] == 'а';
      assert p[0] == 'а';
    }
  }

  /** The number of characters of the lower-cased mode word the backend
      compares with the stems. */
  const WrittenCut: nat := 9

  /** The cut the stems call for: as many characters as the longest stem
      has. */
  const CorrectedCut: nat := 10

  /** The mode-word test as the backend writes it, on the first nine
      characters. */
  function ModeCodeAsWritten(word: string): Option<string>
  {
    ModeCodeCut(word, WrittenCut)
  }

  /** The trolleybus stem has ten characters, so after a nine-character cut
      no mode word is ever taken for a trolleybus line. */
  lemma TrolleybusStemNeverMatches(word: string)
    ensures ModeCodeAsWritten(word) != Some(TrolleybusType)
  {
    var prefix := Take(ToLower(word), 9);
    FirstCodeOfStems(prefix);
    assert |"тролейбусн"| == 10;
    assert !StartsWith(prefix, "тролейбусн");
  }

  /** The mode-word test the stems call for: the cut keeps as many
      characters as the longest stem has. */
  function ModeCode(word: string): Option<string>
  {
    ModeCodeCut(word, CorrectedCut)
  }

  lemma StartsWithCut(s: string, p: string, n: nat)
    requires |p| <= n
    ensures StartsWith(Take(s, n), p) <==> StartsWith(s, p)
  {
    if |s| > n {
      assert Take(s, n)[..|p|] == s[..|p|];
    }
  }

  /** A mode word names a route type iff its lower-cased form starts with
      that type's stem. */
  lemma ModeCodeSpec(word: string)
    ensures ModeCode(word) == Some(TramType) <==> StartsWith(ToLower(word), "трамвайн")
    ensures ModeCode(word) == Some(BusType) <==> StartsWith(ToLower(word), "автобусн")
    ensures ModeCode(word) == Some(TrolleybusType) <==> StartsWith(ToLower(word), "тролейбусн")
    ensures ModeCode(word).Some? ==> ModeCode(word).value in {TramType, BusType, TrolleybusType}
  {
    var lower := ToLower(word);
    StartsWithCut(lower, "трамвайн", 10);
    StartsWithCut(lower, "автобусн", 10);
    StartsWithCut(lower, "тролейбусн", 10);
    FirstCodeOfStems(Take(lower, 10));
    StemsExclusive(lower);
  }

  /** Lower-case text is its own lower-cased form. */
  lemma {:induction false} LowerIsIdentity(s: string)
    requires forall i :: 0 <= i < |s| ==> LowerChar(s[i]) == s[i]
    ensures ToLower(s) == s
  {
    if s != [] {
      LowerIsIdentity(s[1..]);
    }
  }

  /** The word the counterexample uses: "тролейбусни" ("trolleybus", plural
      adjective), already in lower case. */
  const TrolleybusWord: string := "тролейбусн" + "и"

  lemma TrolleybusWordIsLower()
    ensures ToLower(TrolleybusWord) == TrolleybusWord
  {
    forall i | 0 <= i < |TrolleybusWord| ensures LowerChar(TrolleybusWord[i]) == TrolleybusWord[i] {
      assert '\U{0430}' <= TrolleybusWord[i] <= '\U{044F}';
    }
    LowerIsIdentity(TrolleybusWord);
  }

  lemma TrolleybusWordCut9(w: string)
    requires w == TrolleybusWord
    ensures Take(ToLower(w), 9) == "тролейбусн"[..9]
  {
    TrolleybusWordIsLower();
    assert w[..10] == "тролейбусн";
  }

  lemma TrolleybusWordCut10(w: string)
    requires w == TrolleybusWord
    ensures Take(ToLower(w), 10) == "тролейбусн"
  {
    TrolleybusWordIsLower();
  }

  lemma StemsOfCut9(p: string)
    requires p == "тролейбусн"[..9]
    ensures !StartsWith(p, "трамвайн") && !StartsWith(p, "автобусн") && !StartsWith(p, "тролейбусн")
  {
    assert p[..8][2] == 'о' != "трамвайн"[2];
    assert p[0] == 'т' != "автобусн"[0];
  }

  lemma StemsOfCut10(p: string)
    requires p == "тролейбусн"
    ensures !StartsWith(p, "трамвайн") && !StartsWith(p, "автобусн") && StartsWith(p, "тролейбусн")
  {
    assert p[..8][2] == 'о' != "трамвайн"[2];
    assert p[0] == 'т' != "автобусн"[0];
  }

  /** The counterexample, as written: a trolleybus mode word names no
      route type at all. */
  lemma TrolleybusWordAsWritten(w: string)
    requires w == TrolleybusWord
    ensures ModeCodeAsWritten(w) == None
  {
    TrolleybusWordCut9(w);
    StemsOfCut9(Take(ToLower(w), 9));
    FirstCodeOfStems(Take(ToLower(w), 9));
  }

  /** With the ten-character cut the same word names trolleybus lines. */
  lemma TrolleybusWordCorrected(w: string)
    requires w == TrolleybusWord
    ensures ModeCode(w) == Some(TrolleybusType)
  {
    TrolleybusWordCut10(w);
    StemsOfCut10(Take(ToLower(w), 10));
    FirstCodeOfStems(Take(ToLower(w), 10));
  }

  // ---------------------------------------------------------------------
  // line-number lists

  /** White space, commas and the conjunction "и" separate line numbers. */
  predicate IsNameSeparator(c: char)
  {
    IsPySpace(c) || c == ',' || c == 'и'
  }

  /** `s` cut at every separator character. */
  function Pieces(s: string): (parts: seq<string>)
    ensures |parts| >= 1
  {
    if s == [] then [[]]
    else
      var rest := Pieces(s[1..]);
      if IsNameSeparator(s[0]) then [[]] + rest
      else [[s[0]] + rest[0]] + rest[1..]
  }

  /** `set(n for n in re.split(r'[\s,и]+', s) if n)`: cutting at runs of
      separators and dropping empty pieces is cutting at every separator
      and dropping empty pieces. */
  function NameTokens(s: string): set<string>
  {
    set p | p in Pieces(s) && p != []
  }

  lemma {:induction false} PiecesHaveNoSeparator(s: string)
    ensures forall i, j :: 0 <= i < |Pieces(s)| && 0 <= j < |Pieces(s)[i]| ==> !IsNameSeparator(Pieces(s)[i][j])
  {
    if s != [] {
      PiecesHaveNoSeparator(s[1..]);
    }
  }

  /** Every line number is non-empty and holds no separator. */
  lemma TokensHaveNoSeparator(s: string)
    ensures forall n :: n in NameTokens(s) ==> n != [] && forall j :: 0 <= j < |n| ==> !IsNameSeparator(n[j])
  {
    PiecesHaveNoSeparator(s);
  }

  /** The separator characters of `s`, in order. */
  function Separators(s: string): string
  {
    if s == [] then [] else (if IsNameSeparator(s[0]) then [s[0]] else []) + Separators(s[1..])
  }

  /** The pieces put back together, `seps[i]` between piece `i` and piece
      `i + 1`. */
  function Interleave(ps: seq<string>, seps: string): string
    requires |ps| == |seps| + 1
  {
    if seps == [] then ps[0] else ps[0] + [seps[0]] + Interleave(ps[1..], seps[1..])
  }

  /** Cutting at the separators loses nothing: there is one piece more than
      there are separators, and putting them back between the pieces gives
      the text. */
  lemma {:induction false} InterleavePieces(s: string)
    ensures |Pieces(s)| == |Separators(s)| + 1
    ensures Interleave(Pieces(s), Separators(s)) == s
  {
    if s != [] {
      var c, t := s[0], s[1..];
      InterleavePieces(t);
      var p, q := Pieces(t), Separators(t);
      assert s == [c] + t;
      if IsNameSeparator(c) {
        assert Pieces(s) == [[]] + p && Separators(s) == [c] + q;
        assert ([[]] + p)[1..] == p && ([c] + q)[1..] == q;
      } else {
        assert Pieces(s) == [[c] + p[0]] + p[1..] && Separators(s) == q;
        var ps := Pieces(s);
        assert ps[0] == [c] + p[0] && ps[1..] == p[1..];
        if q != [] {
          assert Interleave(p, q) == p[0] + [q[0]] + Interleave(p[1..], q[1..]);
        }
      }
    }
  }

  /** A separator-free word glued to the front of a text joins its first
      piece. */
  lemma {:induction false} PiecesOfWordPrefix(w: string, r: string)
    requires forall j :: 0 <= j < |w| ==> !IsNameSeparator(w[j])
    ensures Pieces(w + r) == [w + Pieces(r)[0]] + Pieces(r)[1..]
  {
    if w != [] {
      var t := w[1..];
      PiecesOfWordPrefix(t, r);
      assert w + r == [w[0]] + (t + r);
      PiecesWord(w[0], t + r, t + Pieces(r)[0], Pieces(r)[1..]);
      assert [w[0]] + (t + Pieces(r)[0]) == w + Pieces(r)[0];
    } else {
      assert w + r == r;
      assert w + Pieces(r)[0] == Pieces(r)[0];
      assert [Pieces(r)[0]] + Pieces(r)[1..] == Pieces(r);
    }
  }

  /** Conversely, separator-free pieces put together with separators cut
      back into exactly those pieces. */
  lemma {:induction false} PiecesOfInterleave(ps: seq<string>, seps: string)
    requires |ps| == |seps| + 1
    requires forall i, j :: 0 <= i < |ps| && 0 <= j < |ps[i]| ==> !IsNameSeparator(ps[i][j])
    requires forall i :: 0 <= i < |seps| ==> IsNameSeparator(seps[i])
    ensures Pieces(Interleave(ps, seps)) == ps
  {
    var w := ps[0];
    assert forall j :: 0 <= j < |w| ==> !IsNameSeparator(w[j]);
    if seps == [] {
      PiecesOfWordPrefix(w, []);
      assert w + [] == w;
      assert Pieces([]) == [[]];
      assert ps == [w];
    } else {
      var rest := Interleave(ps[1..], seps[1..]);
      PiecesOfInterleave(ps[1..], seps[1..]);
      assert Interleave(ps, seps) == w + ([seps[0]] + rest);
      PiecesOfWordPrefix(w, [seps[0]] + rest);
      PiecesSeparator(seps[0], rest);
      assert Pieces([seps[0]] + rest) == [[]] + ps[1..];
      assert w + [] == w;
      assert ([[]] + ps[1..])[1..] == ps[1..];
      assert ps == [w] + ps[1..];
    }
  }

  lemma PiecesWord(c: char, s: string, first: string, rest: seq<string>)
    requires !IsNameSeparator(c) && Pieces(s) == [first] + rest
    ensures Pieces([c] + s) == [[c] + first] + rest
  {
    assert ([c] + s)[0] == c && ([c] + s)[1..] == s;
    var p := Pieces(s);
    assert p[0] == first && p[1..] == rest;
  }

  lemma PiecesSeparator(c: char, s: string)
    requires IsNameSeparator(c)
    ensures Pieces([c] + s) == [[]] + Pieces(s)
  {
    assert ([c] + s)[0] == c && ([c] + s)[1..] == s;
  }

  /** The pieces of " и 12", built up from the end. */
  lemma PiecesOfTail(e: string, s8: string, s7: string, s6: string, s5: string, s4: string)
    requires e == [] && s8 == ['2'] + e && s7 == ['1'] + s8 && s6 == [' '] + s7 && s5 == ['и'] + s6 && s4 == [' '] + s5
    ensures Pieces(s4) == [e] + [e, e, "12"]
  {
    assert Pieces(e) == [e] + [];
    PiecesWord('2', e, e, []);
    assert ['2'] + e == "2";
    PiecesWord('1', s8, "2", []);
    assert ['1'] + "2" == "12";
    PiecesSeparator(' ', s7);
    PiecesSeparator('и', s6);
    PiecesSeparator(' ', s5);
  }

  /** The pieces of ", 7 и 12", built up from the end. */
  lemma PiecesOfMiddle(e: string, s4: string, s3: string, s2: string, s1: string)
    requires e == [] && Pieces(s4) == [e] + [e, e, "12"]
    requires s3 == ['7'] + s4 && s2 == [' '] + s3 && s1 == [','] + s2
    ensures Pieces(s1) == [e] + [e, "7", e, e, "12"]
  {
    PiecesWord('7', s4, e, [e, e, "12"]);
    assert ['7'] + e == "7";
    PiecesSeparator(' ', s3);
    PiecesSeparator(',', s2);
  }

  /** The line numbers of a list cut into these pieces. */
  lemma TokensOfPieces(list: string, e: string)
    requires e == [] && Pieces(list) == ["5", e, "7", e, e, "12"]
    ensures NameTokens(list) == {"5", "7", "12"}
  {
  }

  /** Splitting the number list of "автобусни линии № 5, 7 и 12". */
  lemma NumberListExample(list: string)
    requires list == "5, 7 и 12"
    ensures NameTokens(list) == {"5", "7", "12"}
  {
    var e: string := [];
    var s8 := ['2'] + e;
    var s7 := ['1'] + s8;
    var s6 := [' '] + s7;
    var s5 := ['и'] + s6;
    var s4 := [' '] + s5;
    var s3 := ['7'] + s4;
    var s2 := [' '] + s3;
    var s1 := [','] + s2;
    var s0 := ['5'] + s1;
    PiecesOfTail(e, s8, s7, s6, s5, s4);
    PiecesOfMiddle(e, s4, s3, s2, s1);
    PiecesWord('5', s1, e, [e, "7", e, e, "12"]);
    assert ['5'] + e == "5";
    assert s0 == list;
    TokensOfPieces(list, e);
  }

  // ---------------------------------------------------------------------
  // the keys an alert attaches to

  /** A route's composite key, when its short name and type are both set. */
  function RouteKey(r: Route): (k: Option<string>)
    ensures k.Some? <==> r.shortName != "" && r.routeType != ""
  {
    if r.shortName != "" && r.routeType != "" then Some(r.shortName + "-" + r.routeType) else None
  }

  /** The keys of the routes with the given ids. */
  function RouteIdKeys(ids: set<string>, data: AlertData): set<string>
  {
    set id | id in ids && id in data.routes && RouteKey(data.routes[id]).Some? :: RouteKey(data.routes[id]).value
  }

  /** The keys of the routes of type `code` whose short name is one of
      `names`. */
  function NamedKeys(names: set<string>, code: string, data: AlertData): set<string>
  {
    set id | id in data.routes && data.routes[id].shortName in names && data.routes[id].routeType == code
      && RouteKey(data.routes[id]).Some? :: RouteKey(data.routes[id]).value
  }

  /** The keys one (mode word, number list) pair names, when the mode word
      is cut to `cut` characters. */
  function MatchKeys(m: (string, string), data: AlertData, cut: nat): set<string>
  {
    match ModeCodeCut(m.0, cut)
    case None => {}
    case Some(code) => NamedKeys(NameTokens(m.1), code, data)
  }

  function MatchesKeys(ms: seq<(string, string)>, data: AlertData, cut: nat): set<string>
  {
    if ms == [] then {} else MatchesKeys(ms[..|ms| - 1], data, cut) + MatchKeys(ms[|ms| - 1], data, cut)
  }

  lemma MatchesKeysStep(ms: seq<(string, string)>, i: int, data: AlertData, cut: nat)
    requires 0 <= i < |ms|
    ensures MatchesKeys(ms[..i + 1], data, cut) == MatchesKeys(ms[..i], data, cut) + MatchKeys(ms[i], data, cut)
  {
    assert ms[..i + 1][..i] == ms[..i];
  }

  /** The route ids of the known trips through a stop. */
  function StopRouteIds(stopId: string, data: AlertData): set<string>
  {
    set t | t in Get(data.stopToTrips, stopId).GetOr([]) && t in data.trips :: data.trips[t].routeId
  }

  function EntityKeys(e: InformedEntity, data: AlertData): set<string>
  {
    if e.routeId.Some? then RouteIdKeys({e.routeId.value}, data)
    else if e.tripId.Some? then
      (if e.tripId.value in data.trips then RouteIdKeys({data.trips[e.tripId.value].routeId}, data) else {})
    else if e.stopId.Some? then RouteIdKeys(StopRouteIds(e.stopId.value, data), data)
    else {}
  }

  function EntitiesKeys(es: seq<InformedEntity>, data: AlertData): set<string>
  {
    if es == [] then {} else EntitiesKeys(es[..|es| - 1], data) + EntityKeys(es[|es| - 1], data)
  }

  lemma EntitiesKeysStep(es: seq<InformedEntity>, j: int, data: AlertData)
    requires 0 <= j < |es|
    ensures EntitiesKeys(es[..j + 1], data) == EntitiesKeys(es[..j], data) + EntityKeys(es[j], data)
  {
    assert es[..j + 1][..j] == es[..j];
  }

  /** The keys one alert attaches its text to. The free text is searched
      only when the text is not empty; the informed entities always are. */
  function AlertKeys(a: Alert, data: AlertData, cut: nat): set<string>
  {
    (if AlertText(a) != "" then MatchesKeys(a.matches, data, cut) else {}) + EntitiesKeys(a.informed, data)
  }

  // ---------------------------------------------------------------------
  // the alert map

  function AppendOnce(s: seq<string>, x: string): (r: seq<string>)
    ensures x in r
  {
    if x in s then s else s + [x]
  }

  /** `m` after attaching `text` to every key of `keys`. */
  function Attach(m: map<string, seq<string>>, keys: set<string>, text: string): (r: map<string, seq<string>>)
    ensures r.Keys == m.Keys + keys
  {
    map k | k in m.Keys + keys :: if k in keys then AppendOnce(Get(m, k).GetOr([]), text) else m[k]
  }

  /** Attaching the same text key set after key set is attaching it to
      their union. */
  lemma AttachUnion(m: map<string, seq<string>>, s: set<string>, t: set<string>, text: string)
    ensures Attach(Attach(m, s, text), t, text) == Attach(m, s + t, text)
  {
    var lhs, rhs := Attach(Attach(m, s, text), t, text), Attach(m, s + t, text);
    forall k | k in lhs ensures lhs[k] == rhs[k] {
      if k in s && k in t {
        assert text in Attach(m, s, text)[k];
      }
    }
  }

  lemma AttachNothing(m: map<string, seq<string>>, text: string)
    ensures Attach(m, {}, text) == m
  {
  }

  /** One more key set attached after the ones before. */
  lemma AttachStep(m: map<string, seq<string>>, mid: map<string, seq<string>>, m': map<string, seq<string>>,
                   s: set<string>, t: set<string>, u: set<string>, text: string)
    requires mid == Attach(m, s, text) && m' == Attach(mid, t, text) && u == s + t
    ensures m' == Attach(m, u, text)
  {
    AttachUnion(m, s, t, text);
  }

  /** The alert map after the feed entities `es`, with mode words cut to
      `cut` characters. */
  function AlertMap(es: seq<FeedEntity>, data: AlertData, cut: nat): map<string, seq<string>>
  {
    if es == [] then map[]
    else
      var init := AlertMap(es[..|es| - 1], data, cut);
      match es[|es| - 1].alert
      case None => init
      case Some(a) => Attach(init, AlertKeys(a, data, cut), AlertText(a))
  }

  /** The texts of the alerts that attach to key `k`, in feed order. */
  function TextsFor(es: seq<FeedEntity>, k: string, data: AlertData, cut: nat): seq<string>
  {
    if es == [] then []
    else
      var init := TextsFor(es[..|es| - 1], k, data, cut);
      match es[|es| - 1].alert
      case None => init
      case Some(a) => if k in AlertKeys(a, data, cut) then init + [AlertText(a)] else init
  }

  /** A key is in the map iff some alert attaches to it, and it maps to the
      texts of those alerts, each once, in order of first arrival. */
  lemma {:induction false} AlertMapSpec(es: seq<FeedEntity>, k: string, data: AlertData, cut: nat)
    ensures k in AlertMap(es, data, cut) <==> TextsFor(es, k, data, cut) != []
    ensures k in AlertMap(es, data, cut) ==> AlertMap(es, data, cut)[k] == Distinct(TextsFor(es, k, data, cut))
  {
    if es != [] {
      AlertMapSpec(es[..|es| - 1], k, data, cut);
    }
  }

  /** The texts of a key never repeat, and are exactly the texts of the
      alerts attaching to it. */
  lemma AlertTextsOnce(es: seq<FeedEntity>, k: string, data: AlertData, cut: nat)
    requires k in AlertMap(es, data, cut)
    ensures NoDuplicates(AlertMap(es, data, cut)[k])
    ensures forall x :: x in AlertMap(es, data, cut)[k] <==> x in TextsFor(es, k, data, cut)
  {
    AlertMapSpec(es, k, data, cut);
  }

  // ---------------------------------------------------------------------
  // the nine-character cut, over the whole map

  /** `k` is the key of a tram or a bus route of `data`. */
  ghost predicate TramOrBusKey(k: string, data: AlertData)
  {
    exists id :: id in data.routes && data.routes[id].routeType in {TramType, BusType} && RouteKey(data.routes[id]) == Some(k)
  }

  /** As written, a (mode word, number list) pair names only tram and bus
      lines. */
  lemma WrittenMatchKeys(mt: (string, string), data: AlertData, k: string)
    requires k in MatchKeys(mt, data, WrittenCut)
    ensures TramOrBusKey(k, data)
  {
    TrolleybusStemNeverMatches(mt.0);
    FirstCodeOfStems(Take(ToLower(mt.0), WrittenCut));
    var code := ModeCodeCut(mt.0, WrittenCut).value;
    var id :| id in data.routes && data.routes[id].shortName in NameTokens(mt.1) && data.routes[id].routeType == code
      && RouteKey(data.routes[id]).Some? && RouteKey(data.routes[id]).value == k;
  }

  lemma {:induction false} WrittenMatchesKeys(ms: seq<(string, string)>, data: AlertData, k: string)
    requires k in MatchesKeys(ms, data, WrittenCut)
    ensures TramOrBusKey(k, data)
  {
    if k in MatchKeys(ms[|ms| - 1], data, WrittenCut) {
      WrittenMatchKeys(ms[|ms| - 1], data, k);
    } else {
      WrittenMatchesKeys(ms[..|ms| - 1], data, k);
    }
  }

  /** As written, free text never reaches a trolleybus line: when no alert
      has informed entities, every key of the map is the key of a tram or
      bus route. */
  lemma {:induction false} WrittenFreeTextSkipsTrolleybus(es: seq<FeedEntity>, data: AlertData, k: string)
    requires forall i :: 0 <= i < |es| && es[i].alert.Some? ==> es[i].alert.value.informed == []
    requires k in AlertMap(es, data, WrittenCut)
    ensures TramOrBusKey(k, data)
  {
    var init := es[..|es| - 1];
    if k in AlertMap(init, data, WrittenCut) {
      assert forall i :: 0 <= i < |init| ==> init[i] == es[i];
      WrittenFreeTextSkipsTrolleybus(init, data, k);
    } else {
      var a := es[|es| - 1].alert.value;
      assert a.informed == [] && EntitiesKeys(a.informed, data) == {};
      WrittenMatchesKeys(a.matches, data, k);
    }
  }

  /** The feed of the counterexample: one alert about trolleybus line 1,
      found only from its text. */
  const TrolleybusAlertFeed: seq<FeedEntity> :=
    [FeedEntity(Some(Alert(Some("Тролейбусни линии № 1"), [(TrolleybusWord, "1")], [])))]

  /** The tables of the counterexample: trolleybus line 1 and nothing
      else. */
  const TrolleybusLineData: AlertData := AlertData(map["TB1" := Route("TB1", "1", TrolleybusType)], map[], map[])

  /** As written, the alert about trolleybus line 1 is not attached to it. */
  lemma TrolleybusAlertAsWritten(es: seq<FeedEntity>, data: AlertData)
    requires es == TrolleybusAlertFeed && data == TrolleybusLineData
    ensures "1-11" !in AlertMap(es, data, WrittenCut)
  {
    if "1-11" in AlertMap(es, data, WrittenCut) {
      WrittenFreeTextSkipsTrolleybus(es, data, "1-11");
      assert false;
    }
  }

  /** With the ten-character cut the same alert is attached to trolleybus
      line 1. */
  lemma TrolleybusAlertCorrected(es: seq<FeedEntity>, data: AlertData)
    requires es == TrolleybusAlertFeed && data == TrolleybusLineData
    ensures AlertMap(es, data, CorrectedCut) == map["1-11" := ["Тролейбусни линии № 1"]]
  {
    var a := es[0].alert.value;
    TrolleybusWordCorrected(a.matches[0].0);
    var e: string := [];
    assert Pieces(e) == [e] + [];
    PiecesWord('1', e, e, []);
    assert ['1'] + e == "1";
    assert NameTokens("1") == {"1"};
    assert "1" + "-" + TrolleybusType == "1-11";
    assert RouteKey(data.routes["TB1"]) == Some("1-11");
    assert NamedKeys({"1"}, TrolleybusType, data) == {"1-11"};
    assert MatchesKeys(a.matches, data, CorrectedCut) == {"1-11"};
    assert AlertKeys(a, data, CorrectedCut) == {"1-11"};
    assert es[..0] == [];
    assert AlertMap(es, data, CorrectedCut) == Attach(map[], {"1-11"}, AlertText(a));
    var r := Attach(map[], {"1-11"}, AlertText(a));
    assert r.Keys == {"1-11"} && r["1-11"] == [AlertText(a)];
  }

  // ---------------------------------------------------------------------
  // get_processed_alerts

  /** The key of a route that may be missing, as a set. */
  function KeysOf(r: Option<Route>): set<string>
  {
    if r.Some? && RouteKey(r.value).Some? then {RouteKey(r.value).value} else {}
  }

  lemma RouteIdKeysOne(id: string, data: AlertData)
    ensures RouteIdKeys({id}, data) == KeysOf(Get(data.routes, id))
  {
  }

  lemma RouteIdKeysAdd(ids: set<string>, id: string, data: AlertData)
    ensures RouteIdKeys(ids, data) + RouteIdKeys({id}, data) == RouteIdKeys(ids + {id}, data)
  {
  }

  /** `add_alert_to_route`: attaches `text` to the key of `route`, if it has
      one, appending it only when it is not there yet. */
  method AddAlertToRoute(m: map<string, seq<string>>, route: Option<Route>, text: string) returns (m': map<string, seq<string>>)
    ensures m' == Attach(m, KeysOf(route), text)
  {
    m' := m;
    if route.Some? {
      var name, kind := route.value.shortName, route.value.routeType;
      if name != "" && kind != "" {
        var key := name + "-" + kind;
        var texts := if key in m' then m'[key] else [];
        if text !in texts {
          texts := texts + [text];
        }
        m' := m'[key := texts];
      }
    }
  }

  /** `byName` holds only routes under their own short name, and holds
      every route among `ids` that has a short name. */
  ghost predicate GroupedByName(byName: map<string, seq<Route>>, routes: map<string, Route>, ids: set<string>)
  {
    (forall name, r :: name in byName && r in byName[name] ==> r.shortName == name && r in routes.Values)
    && (forall id :: id in ids && id in routes && routes[id].shortName != "" ==>
          routes[id].shortName in byName && routes[id] in byName[routes[id].shortName])
  }

  lemma GroupStep(byName: map<string, seq<Route>>, routes: map<string, Route>, ids: set<string>, id: string)
    requires GroupedByName(byName, routes, ids) && id in routes
    ensures GroupedByName(
      if routes[id].shortName != "" then byName[routes[id].shortName := Get(byName, routes[id].shortName).GetOr([]) + [routes[id]]]
      else byName, routes, ids + {id})
  {
  }

  /** `routes_by_short_name`: the routes with a short name, grouped by it. */
  method GroupRoutesByName(routes: map<string, Route>) returns (byName: map<string, seq<Route>>)
    ensures GroupedByName(byName, routes, routes.Keys)
  {
    byName := map[];
    var todo := routes.Keys;
    while todo != {}
      invariant todo <= routes.Keys
      invariant GroupedByName(byName, routes, routes.Keys - todo)
      decreases |todo|
    {
      var id :| id in todo;
      GroupStep(byName, routes, routes.Keys - todo, id);
      MoveDone(routes.Keys, todo, id);
      todo := todo - {id};
      var r := routes[id];
      if r.shortName != "" {
        byName := byName[r.shortName := Get(byName, r.shortName).GetOr([]) + [r]];
      }
    }
    assert routes.Keys - todo == routes.Keys;
  }

  /** The route-type code of a mode word cut to `cut` characters, trying
      the stems in order. */
  method FindModeCode(word: string, cut: nat) returns (code: Option<string>)
    ensures code == ModeCodeCut(word, cut)
  {
    var prefix := Take(ToLower(word), cut);
    code := None;
    var i := 0;
    while i < |ModeStems|
      invariant 0 <= i <= |ModeStems|
      invariant FirstCode(prefix, ModeStems) == FirstCode(prefix, ModeStems[i..])
    {
      assert ModeStems[i..][1..] == ModeStems[i + 1..];
      if StartsWith(prefix, ModeStems[i].1) {
        code := Some(ModeStems[i].0);
        return;
      }
      i := i + 1;
    }
  }

  function RouteKeyIf(r: Route, code: string): set<string>
  {
    if r.routeType == code then KeysOf(Some(r)) else {}
  }

  /** The keys of the routes of type `code` among `rs`. */
  function RoutesKeys(rs: seq<Route>, code: string): set<string>
  {
    set i | 0 <= i < |rs| && rs[i].routeType == code && RouteKey(rs[i]).Some? :: RouteKey(rs[i]).value
  }

  lemma RoutesKeysStep(rs: seq<Route>, j: int, code: string)
    requires 0 <= j < |rs|
    ensures RoutesKeys(rs[..j + 1], code) == RoutesKeys(rs[..j], code) + RouteKeyIf(rs[j], code)
  {
    var a, b := rs[..j + 1], rs[..j];
    forall x | x in RoutesKeys(a, code) ensures x in RoutesKeys(b, code) + RouteKeyIf(rs[j], code) {
      var i :| 0 <= i < |a| && a[i].routeType == code && RouteKey(a[i]).Some? && RouteKey(a[i]).value == x;
      if i < j { assert b[i] == a[i]; }
    }
    forall x | x in RoutesKeys(b, code) ensures x in RoutesKeys(a, code) {
      var i :| 0 <= i < |b| && b[i].routeType == code && RouteKey(b[i]).Some? && RouteKey(b[i]).value == x;
      assert a[i] == b[i];
    }
    if RouteKeyIf(rs[j], code) != {} {
      assert a[j] == rs[j];
    }
  }

  /** Attaches `text` to the routes of type `code` among one name's
      routes. */
  method AttachGroup(m: map<string, seq<string>>, routes: seq<Route>, code: string, text: string)
    returns (m': map<string, seq<string>>)
    ensures m' == Attach(m, RoutesKeys(routes, code), text)
  {
    m' := m;
    var j := 0;
    AttachNothing(m, text);
    while j < |routes|
      invariant 0 <= j <= |routes|
      invariant m' == Attach(m, RoutesKeys(routes[..j], code), text)
    {
      ghost var mid := m';
      if routes[j].routeType == code {
        m' := AddAlertToRoute(m', Some(routes[j]), text);
      } else {
        AttachNothing(m', text);
      }
      RoutesKeysStep(routes, j, code);
      AttachStep(m, mid, m', RoutesKeys(routes[..j], code), RouteKeyIf(routes[j], code), RoutesKeys(routes[..j + 1], code), text);
      j := j + 1;
    }
    assert routes[..j] == routes;
  }

  lemma NamedKeysOfGroup(name: string, code: string, data: AlertData, byName: map<string, seq<Route>>)
    requires GroupedByName(byName, data.routes, data.routes.Keys)
    ensures RoutesKeys(Get(byName, name).GetOr([]), code) == NamedKeys({name}, code, data)
  {
    var routes := Get(byName, name).GetOr([]);
    forall x | x in RoutesKeys(routes, code) ensures x in NamedKeys({name}, code, data) {
      var i :| 0 <= i < |routes| && routes[i].routeType == code && RouteKey(routes[i]).Some? && RouteKey(routes[i]).value == x;
      assert routes[i] in byName[name];
      var id :| id in data.routes && data.routes[id] == routes[i];
    }
    forall x | x in NamedKeys({name}, code, data) ensures x in RoutesKeys(routes, code) {
      var id :| id in data.routes && data.routes[id].shortName in {name} && data.routes[id].routeType == code
        && RouteKey(data.routes[id]).Some? && RouteKey(data.routes[id]).value == x;
      assert id in data.routes.Keys;
      assert data.routes[id] in byName[name];
      var i :| 0 <= i < |routes| && routes[i] == data.routes[id];
    }
  }

  /** Moving one element from the to-do part to the done part. */
  lemma MoveDone(all: set<string>, todo: set<string>, x: string)
    requires todo <= all && x in todo
    ensures all - todo + {x} == all - (todo - {x})
  {
  }

  lemma NamedKeysUnion(done: set<string>, name: string, code: string, data: AlertData)
    ensures NamedKeys(done, code, data) + NamedKeys({name}, code, data) == NamedKeys(done + {name}, code, data)
  {
  }

  /** Attaches `text` to the routes of type `code` named in `names`. */
  method AttachNames(m: map<string, seq<string>>, names: set<string>, code: string, text: string, data: AlertData,
                     byName: map<string, seq<Route>>)
    returns (m': map<string, seq<string>>)
    requires GroupedByName(byName, data.routes, data.routes.Keys)
    ensures m' == Attach(m, NamedKeys(names, code, data), text)
  {
    m' := m;
    AttachNothing(m, text);
    var todo := names;
    while todo != {}
      invariant todo <= names
      invariant m' == Attach(m, NamedKeys(names - todo, code, data), text)
      decreases |todo|
    {
      var name :| name in todo;
      ghost var mid := m';
      m' := AttachGroup(m', Get(byName, name).GetOr([]), code, text);
      NamedKeysOfGroup(name, code, data, byName);
      NamedKeysUnion(names - todo, name, code, data);
      MoveDone(names, todo, name);
      AttachStep(m, mid, m', NamedKeys(names - todo, code, data), NamedKeys({name}, code, data),
                 NamedKeys(names - (todo - {name}), code, data), text);
      todo := todo - {name};
    }
    assert names - todo == names;
  }

  /** Attaches `text` to the lines one (mode word, number list) pair
      names. */
  method AttachMatch(m: map<string, seq<string>>, match_: (string, string), text: string, data: AlertData,
                     byName: map<string, seq<Route>>, cut: nat)
    returns (m': map<string, seq<string>>)
    requires GroupedByName(byName, data.routes, data.routes.Keys)
    ensures m' == Attach(m, MatchKeys(match_, data, cut), text)
  {
    var code := FindModeCode(match_.0, cut);
    if code.None? {
      m' := m;
      AttachNothing(m, text);
    } else {
      m' := AttachNames(m, NameTokens(match_.1), code.value, text, data, byName);
    }
  }

  /** Attaches `text` to the lines of the known trips through a stop. */
  method AttachStop(m: map<string, seq<string>>, stopId: string, text: string, data: AlertData)
    returns (m': map<string, seq<string>>)
    ensures m' == Attach(m, RouteIdKeys(StopRouteIds(stopId, data), data), text)
  {
    var routeIds := StopRouteIds(stopId, data);
    var todo := routeIds;
    m' := m;
    AttachNothing(m, text);
    while todo != {}
      invariant todo <= routeIds
      invariant m' == Attach(m, RouteIdKeys(routeIds - todo, data), text)
      decreases |todo|
    {
      var id :| id in todo;
      ghost var mid := m';
      m' := AddAlertToRoute(m', Get(data.routes, id), text);
      RouteIdKeysOne(id, data);
      RouteIdKeysAdd(routeIds - todo, id, data);
      MoveDone(routeIds, todo, id);
      AttachStep(m, mid, m', RouteIdKeys(routeIds - todo, data), RouteIdKeys({id}, data),
                 RouteIdKeys(routeIds - (todo - {id}), data), text);
      todo := todo - {id};
    }
    assert routeIds - todo == routeIds;
  }

  /** Attaches `text` to the lines an informed entity names. */
  method AttachEntity(m: map<string, seq<string>>, e: InformedEntity, text: string, data: AlertData)
    returns (m': map<string, seq<string>>)
    ensures m' == Attach(m, EntityKeys(e, data), text)
  {
    if e.routeId.Some? {
      m' := AddAlertToRoute(m, Get(data.routes, e.routeId.value), text);
      RouteIdKeysOne(e.routeId.value, data);
    } else if e.tripId.Some? {
      var trip := Get(data.trips, e.tripId.value);
      if trip.Some? {
        m' := AddAlertToRoute(m, Get(data.routes, trip.value.routeId), text);
        RouteIdKeysOne(trip.value.routeId, data);
      } else {
        m' := m;
        AttachNothing(m, text);
      }
    } else if e.stopId.Some? {
      m' := AttachStop(m, e.stopId.value, text, data);
    } else {
      m' := m;
      AttachNothing(m, text);
    }
  }

  /** Attaches `text` to the lines of every (mode word, number list)
      pair. */
  method AttachMatches(m: map<string, seq<string>>, matches: seq<(string, string)>, text: string, data: AlertData,
                       byName: map<string, seq<Route>>, cut: nat)
    returns (m': map<string, seq<string>>)
    requires GroupedByName(byName, data.routes, data.routes.Keys)
    ensures m' == Attach(m, MatchesKeys(matches, data, cut), text)
  {
    m' := m;
    AttachNothing(m, text);
    var i := 0;
    while i < |matches|
      invariant 0 <= i <= |matches|
      invariant m' == Attach(m, MatchesKeys(matches[..i], data, cut), text)
    {
      ghost var mid := m';
      m' := AttachMatch(m', matches[i], text, data, byName, cut);
      MatchesKeysStep(matches, i, data, cut);
      AttachStep(m, mid, m', MatchesKeys(matches[..i], data, cut), MatchKeys(matches[i], data, cut),
                 MatchesKeys(matches[..i + 1], data, cut), text);
      i := i + 1;
    }
    assert matches[..i] == matches;
  }

  /** Attaches `text` to the lines of every informed entity. */
  method AttachEntities(m: map<string, seq<string>>, informed: seq<InformedEntity>, text: string, data: AlertData)
    returns (m': map<string, seq<string>>)
    ensures m' == Attach(m, EntitiesKeys(informed, data), text)
  {
    m' := m;
    AttachNothing(m, text);
    var j := 0;
    while j < |informed|
      invariant 0 <= j <= |informed|
      invariant m' == Attach(m, EntitiesKeys(informed[..j], data), text)
    {
      ghost var mid := m';
      m' := AttachEntity(m', informed[j], text, data);
      EntitiesKeysStep(informed, j, data);
      AttachStep(m, mid, m', EntitiesKeys(informed[..j], data), EntityKeys(informed[j], data),
                 EntitiesKeys(informed[..j + 1], data), text);
      j := j + 1;
    }
    assert informed[..j] == informed;
  }

  /** Processes one alert: free-text matches first, then informed
      entities. */
  method ProcessAlert(m: map<string, seq<string>>, a: Alert, data: AlertData, byName: map<string, seq<Route>>, cut: nat)
    returns (m': map<string, seq<string>>)
    requires GroupedByName(byName, data.routes, data.routes.Keys)
    ensures m' == Attach(m, AlertKeys(a, data, cut), AlertText(a))
  {
    var text := if a.description.Some? then a.description.value else NoDescription;
    var afterText := m;
    ghost var textKeys: set<string> := {};
    if text != "" {
      afterText := AttachMatches(m, a.matches, text, data, byName, cut);
      textKeys := MatchesKeys(a.matches, data, cut);
    } else {
      AttachNothing(m, text);
    }
    m' := AttachEntities(afterText, a.informed, text, data);
    AttachStep(m, afterText, m', textKeys, EntitiesKeys(a.informed, data), AlertKeys(a, data, cut), text);
  }

  /** `get_processed_alerts`, as written, with the nine-character cut:
      nothing before the first alerts feed, and otherwise the alert map of
      the feed's entities, so that every key lists the texts of the alerts
      about it once each, in feed order. */
  method ProcessAlerts(feed: Option<seq<FeedEntity>>, data: AlertData) returns (m: map<string, seq<string>>)
    ensures feed.None? ==> m == map[]
    ensures feed.Some? ==> m == AlertMap(feed.value, data, WrittenCut)
    ensures feed.Some? ==> forall k :: k in m <==> TextsFor(feed.value, k, data, WrittenCut) != []
    ensures feed.Some? ==> forall k :: k in m ==> m[k] == Distinct(TextsFor(feed.value, k, data, WrittenCut))
  {
    if feed.None? {
      return map[];
    }
    var es := feed.value;
    var byName := GroupRoutesByName(data.routes);
    m := map[];
    var i := 0;
    while i < |es|
      invariant 0 <= i <= |es|
      invariant m == AlertMap(es[..i], data, WrittenCut)
    {
      assert es[..i + 1][..i] == es[..i];
      if es[i].alert.Some? {
        m := ProcessAlert(m, es[i].alert.value, data, byName, WrittenCut);
      }
      i := i + 1;
    }
    assert es[..i] == es;
    forall k {
      AlertMapSpec(es, k, data, WrittenCut);
    }
  }
}
