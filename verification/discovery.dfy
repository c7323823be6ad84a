/** Bill discovery from the Chamber of Deputies' session listings
    (packages/etl/src/etls/legislativo/discovery.ts): the depth-agnostic walk
    that collects bill numbers from a session document, the selection of the
    most recent periods and sessions, and the rows and writes of one run.
    Fetching, parsing and dates are oracles passed in. */
module Discovery {
  import opened Wrappers
  import opened Strings
  import opened Tree
  import Dates
  import Batch

  // ─── The walk ────────────────────────────────────────────────────────────

  /** Keys under which bills are listed; the match is exact and case-sensitive. */
  predicate IsProjectKey(key: string)
  {
    key == "Proyecto" || key == "PROYECTO_LEY"
  }

  /** `record['@_Boletin'] ?? record['Boletin'] ?? record['@_BOLETIN']`: the
      first of the three that is neither null nor undefined. */
  function ChosenId(item: Node): (r: Option<Node>)
    ensures !Nullish(Member(item, "@_Boletin")) ==> r == Member(item, "@_Boletin")
    ensures Nullish(Member(item, "@_Boletin")) && !Nullish(Member(item, "Boletin")) ==> r == Member(item, "Boletin")
    ensures Nullish(Member(item, "@_Boletin")) && Nullish(Member(item, "Boletin")) ==> r == Member(item, "@_BOLETIN")
  {
    var first := Member(item, "@_Boletin");
    if !Nullish(first) then first
    else
      var second := Member(item, "Boletin");
      if !Nullish(second) then second else Member(item, "@_BOLETIN")
  }

  /** The bill number one listed item contributes: only an object item whose
      chosen value is a non-empty string contributes one. */
  function ItemId(item: Node): (r: Option<string>)
    ensures r.Some? <==> IsObject(item) && ChosenId(item).Some? && ChosenId(item).value.Str? && ChosenId(item).value.s != ""
    ensures r.Some? ==> ChosenId(item) == Some(Str(r.value))
  {
    if IsObject(item) then
      match ChosenId(item)
      case Some(Str(s)) => if s != "" then Some(s) else None
      case _ => None
    else None
  }

  /** No value occurs twice. */
  predicate NoDup(s: seq<string>)
  {
    forall i, j :: 0 <= i < j < |s| ==> s[i] != s[j]
  }

  /** `Set.add` on an insertion-ordered set held as a list. */
  function Add(acc: seq<string>, b: string): (r: seq<string>)
    ensures acc <= r
    ensures forall x :: x in r <==> x in acc || x == b
    ensures NoDup(acc) ==> NoDup(r)
  {
    if b in acc then acc else acc + [b]
  }

  // The reference: which bill numbers a document holds, as a set, with no
  // accumulator and no order.

  /** The bill numbers directly listed by the items under a matched key. */
  function ListedIds(items: seq<Node>): set<string>
  {
    if |items| == 0 then {}
    else (if ItemId(items[0]).Some? then {ItemId(items[0]).value} else {}) + ListedIds(items[1..])
  }

  /** Every bill number listed at any depth of `node`. */
  function Ids(node: Node): set<string>
  {
    match node
    case Obj(entries) => EntriesIds(entries)
    case Arr(items) => ItemsIds(items)
    case _ => {}
  }

  function EntriesIds(entries: seq<Entry>): set<string>
  {
    if |entries| == 0 then {}
    else
      var e := entries[0];
      (if IsProjectKey(e.key) then ListedIds(EnsureArray(Some(e.value))) else {})
      + Ids(e.value) + EntriesIds(entries[1..])
  }

  function ItemsIds(items: seq<Node>): set<string>
  {
    if |items| == 0 then {} else Ids(items[0]) + ItemsIds(items[1..])
  }

  // The walk as the code does it: an accumulator threaded through a
  // depth-first, left-to-right traversal.

  /** The inner loop over the items under a matched key. */
  function Collect(items: seq<Node>, acc: seq<string>): (r: seq<string>)
    ensures acc <= r
    ensures forall x :: x in r <==> x in acc || x in ListedIds(items)
    ensures NoDup(acc) ==> NoDup(r)
  {
    if |items| == 0 then acc
    else
      var acc1 := if ItemId(items[0]).Some? then Add(acc, ItemId(items[0]).value) else acc;
      Collect(items[1..], acc1)
  }

  /** `extractBoletinesRecursive(node, boletines)`: the accumulator only grows,
      stays free of repeats, and ends up holding exactly what it held plus
      every bill number listed anywhere in `node`. */
  function Walk(node: Node, acc: seq<string>): (r: seq<string>)
    ensures acc <= r
    ensures forall x :: x in r <==> x in acc || x in Ids(node)
    ensures NoDup(acc) ==> NoDup(r)
  {
    match node
    case Obj(entries) => WalkEntries(entries, acc)
    case Arr(items) => WalkItems(items, acc)
    case _ => acc
  }

  /** The loop over an object's entries: a matched key's items first, then the
      descent into the value, matched or not. */
  function WalkEntries(entries: seq<Entry>, acc: seq<string>): (r: seq<string>)
    ensures acc <= r
    ensures forall x :: x in r <==> x in acc || x in EntriesIds(entries)
    ensures NoDup(acc) ==> NoDup(r)
  {
    if |entries| == 0 then acc
    else
      var e := entries[0];
      var acc1 := if IsProjectKey(e.key) then Collect(EnsureArray(Some(e.value)), acc) else acc;
      WalkEntries(entries[1..], Walk(e.value, acc1))
  }

  /** The loop over an array's elements. */
  function WalkItems(items: seq<Node>, acc: seq<string>): (r: seq<string>)
    ensures acc <= r
    ensures forall x :: x in r <==> x in acc || x in ItemsIds(items)
    ensures NoDup(acc) ==> NoDup(r)
  {
    if |items| == 0 then acc
    else WalkItems(items[1..], Walk(items[0], acc))
  }

  /** Scalars, `null` and the empty containers list nothing. */
  lemma ScalarsListNothing(node: Node)
    requires !IsObject(node)
    ensures Walk(node, []) == []
  {
  }

  /** A bill listed under an entry of an array element is found: matches are
      collected at any depth. */
  lemma {:induction false} IdsOfElement(items: seq<Node>, i: nat, x: string)
    requires i < |items| && x in Ids(items[i])
    ensures x in ItemsIds(items)
    decreases i
  {
    if i > 0 {
      IdsOfElement(items[1..], i - 1, x);
    }
  }

  /** A bill listed inside the value of any entry is found. */
  lemma {:induction false} IdsOfValue(entries: seq<Entry>, i: nat, x: string)
    requires i < |entries| && x in Ids(entries[i].value)
    ensures x in EntriesIds(entries)
    decreases i
  {
    if i > 0 {
      IdsOfValue(entries[1..], i - 1, x);
    }
  }

  /** An item listed directly under a matched key is found. */
  lemma {:induction false} ListedIdsComplete(items: seq<Node>, i: nat)
    requires i < |items| && ItemId(items[i]).Some?
    ensures ItemId(items[i]).value in ListedIds(items)
    decreases i
  {
    if i > 0 {
      ListedIdsComplete(items[1..], i - 1);
    }
  }

  /** Every found number comes from some listed item: nothing is invented. */
  lemma {:induction false} ListedIdsSound(items: seq<Node>, x: string)
    requires x in ListedIds(items)
    ensures exists i :: 0 <= i < |items| && ItemId(items[i]) == Some(x)
  {
    if ItemId(items[0]) == Some(x) {
      assert ItemId(items[0]) == Some(x);
    } else {
      ListedIdsSound(items[1..], x);
      var i :| 0 <= i < |items[1..]| && ItemId(items[1..][i]) == Some(x);
      assert ItemId(items[i + 1]) == Some(x);
    }
  }

  /** A present `@_Boletin` that is empty shadows a non-empty `Boletin`: the
      fallback is on null/undefined only, not on falsy values. */
  lemma EmptyAttributeDoesNotFallThrough()
    ensures ItemId(Obj([Entry("@_Boletin", Str("")), Entry("Boletin", Str("1234-07"))])) == None
    ensures ItemId(Obj([Entry("@_Boletin", Null), Entry("Boletin", Str("1234-07"))])) == Some("1234-07")
  {
  }

  /** The key match is case-sensitive: `proyecto` lists nothing. */
  lemma KeyMatchIsCaseSensitive()
    ensures Ids(Obj([Entry("proyecto", Obj([Entry("@_Boletin", Str("1234-07"))]))])) == {}
    ensures Ids(Obj([Entry("Proyecto", Obj([Entry("@_Boletin", Str("1234-07"))]))])) == {"1234-07"}
  {
    var item := Obj([Entry("@_Boletin", Str("1234-07"))]);
    assert ItemId(item) == Some("1234-07");
    assert ListedIds([item]) == {"1234-07"};
  }

  // ─── One session document ────────────────────────────────────────────────

  /** `data['BOLETINXML']?.['SESION'] ?? {}` on a parsed document that is not null. */
  function SessionNode(data: Node): Node
  {
    Coalesce(Get(Member(data, "BOLETINXML"), "SESION"), Obj([]))
  }

  /** `extractBoletinesFromSesion`: `xml` is what the fetch returned. No text,
      empty text, a parse error or a null document give the empty list; else
      the bill numbers of the session subtree, each once, in the order the
      walk meets them. */
  function ExtractFromSesion(xml: Option<string>, parse: string -> Option<Node>): (r: seq<string>)
    ensures NoDup(r)
    ensures xml.None? || xml.value == "" ==> r == []
    ensures xml.Some? && xml.value != "" && parse(xml.value).Some? && !parse(xml.value).value.Null? ==>
      forall x :: x in r <==> x in Ids(SessionNode(parse(xml.value).value))
    ensures xml.Some? && parse(xml.value).None? ==> r == []
  {
    if xml.None? || xml.value == "" then []
    else
      match parse(xml.value)
      case None => []
      case Some(data) => if data.Null? then [] else Walk(SessionNode(data), [])
  }

  // ─── Most recent first ───────────────────────────────────────────────────

  /** `parseInt(x.ID)` of a listed period or session. */
  function Key(item: Node): Option<int>
  {
    ParseInt(TemplateText(Get(Some(item), "ID")))
  }

  /** Every item has a numeric ID. Only then is the order of the code's
      comparator (`parseInt(b.ID) - parseInt(a.ID)`) specified. */
  predicate Keyed(items: seq<Node>)
  {
    forall i :: 0 <= i < |items| ==> Key(items[i]).Some?
  }

  /** A listed item with its numeric ID read once. */
  datatype Ranked = Ranked(key: int, item: Node)

  /** Each item paired with its ID, in the order given. */
  function Rank(items: seq<Node>): (rs: seq<Ranked>)
    requires Keyed(items)
    ensures |rs| == |items|
    ensures forall i :: 0 <= i < |rs| ==> rs[i] == Ranked(Key(items[i]).value, items[i])
  {
    seq(|items|, i requires 0 <= i < |items| => Ranked(Key(items[i]).value, items[i]))
  }

  /** Every pair carries its item's own ID. */
  predicate Ranks(rs: seq<Ranked>)
  {
    forall i :: 0 <= i < |rs| ==> Key(rs[i].item) == Some(rs[i].key)
  }

  predicate SortedDesc(rs: seq<Ranked>)
  {
    forall i, j :: 0 <= i < j < |rs| ==> rs[i].key >= rs[j].key
  }

  /** Places `x` before the first pair whose ID is not larger, so that among
      equal IDs the earlier item stays first. */
  function InsertDesc(x: Ranked, s: seq<Ranked>): (r: seq<Ranked>)
    requires SortedDesc(s)
    ensures |r| == |s| + 1
    ensures multiset(r) == multiset(s) + multiset{x}
    ensures r[0] == x || (|s| > 0 && r[0] == s[0])
    ensures SortedDesc(r)
  {
    if |s| == 0 then [x]
    else if x.key >= s[0].key then [x] + s
    else
      var rest := InsertDesc(x, s[1..]);
      assert s == [s[0]] + s[1..];
      [s[0]] + rest
  }

  /** The stable descending sort the code asks of `Array.prototype.sort`. */
  function SortDesc(s: seq<Ranked>): (r: seq<Ranked>)
    ensures |r| == |s|
    ensures multiset(r) == multiset(s)
    ensures SortedDesc(r)
  {
    if |s| == 0 then []
    else
      assert s == [s[0]] + s[1..];
      InsertDesc(s[0], SortDesc(s[1..]))
  }

  /** A rearrangement keeps every pair's ID its item's own. */
  lemma RanksPermutation(a: seq<Ranked>, b: seq<Ranked>)
    requires Ranks(a) && multiset(a) == multiset(b)
    ensures Ranks(b)
  {
    forall i | 0 <= i < |b|
      ensures Key(b[i].item) == Some(b[i].key)
    {
      assert b[i] in multiset(a);
      var j :| 0 <= j < |a| && a[j] == b[i];
    }
  }

  /** The items of a ranked list, in order. */
  function Items(rs: seq<Ranked>): (items: seq<Node>)
    ensures |items| == |rs|
    ensures forall i :: 0 <= i < |rs| ==> items[i] == rs[i].item
  {
    seq(|rs|, i requires 0 <= i < |rs| => rs[i].item)
  }

  /** `items.sort(byIdDesc).slice(0, n)`, with the IDs: the `n` items with the
      largest IDs. Every kept item has an ID at least that of every dropped
      one, and kept plus dropped is the whole list. */
  function Top(items: seq<Node>, n: nat): (r: seq<Ranked>)
    requires Keyed(items)
    ensures |r| == if |items| <= n then |items| else n
    ensures Ranks(r) && SortedDesc(r)
    ensures multiset(r) + multiset(Dropped(items, n)) == multiset(Rank(items))
    ensures forall i, j :: 0 <= i < |r| && 0 <= j < |Dropped(items, n)| ==> r[i].key >= Dropped(items, n)[j].key
  {
    var sorted := SortDesc(Rank(items));
    RanksPermutation(Rank(items), sorted);
    var k := if |items| <= n then |items| else n;
    SplitSorted(sorted, k);
    assert Dropped(items, n) == sorted[k..];
    sorted[..k]
  }

  /** Cutting a sorted list keeps both parts sorted, loses nothing, and puts
      every key of the front at least as high as every key of the back. */
  lemma SplitSorted(sorted: seq<Ranked>, k: nat)
    requires SortedDesc(sorted) && k <= |sorted|
    ensures SortedDesc(sorted[..k])
    ensures multiset(sorted[..k]) + multiset(sorted[k..]) == multiset(sorted)
    ensures forall i, j :: 0 <= i < k && 0 <= j < |sorted| - k ==> sorted[..k][i].key >= sorted[k..][j].key
  {
    assert sorted == sorted[..k] + sorted[k..];
    forall i, j | 0 <= i < k && 0 <= j < |sorted| - k
      ensures sorted[..k][i].key >= sorted[k..][j].key
    {
      assert sorted[k..][j] == sorted[k + j];
    }
  }

  /** The pairs `Top` leaves out. */
  function Dropped(items: seq<Node>, n: nat): seq<Ranked>
    requires Keyed(items)
  {
    var sorted := SortDesc(Rank(items));
    if |items| <= n then [] else sorted[n..]
  }

  /** The item with the largest ID comes first. */
  lemma TopStartsWithLargest(items: seq<Node>, n: nat, i: nat)
    requires Keyed(items) && i < |items| && n > 0
    ensures Top(items, n)[0].key >= Key(items[i]).value
  {
    var sorted := SortDesc(Rank(items));
    assert Rank(items)[i] in multiset(sorted);
    var j :| 0 <= j < |sorted| && sorted[j] == Rank(items)[i];
  }

  /** Processed periods and sessions per run. */
  const PeriodLimit: nat := 5
  const SessionLimit: nat := 20

  // ─── Rows ────────────────────────────────────────────────────────────────

  /** A row of the `sesiones` table. `None` in `numero` and `legislatura`
      stands for `NaN`, which the store receives as null. */
  datatype SesionRow = SesionRow(
    id: string,
    camara: string,
    numero: Option<int>,
    legislatura: Option<int>,
    fecha: Option<string>,
    tipo: Option<Node>,
    updatedAt: string)

  /** The session row of `runDiscovery` for session `s` of period `legId`. */
  function SesionRowOf(s: Node, legId: Option<Node>, iso: Node -> Option<string>, now: string): (row: SesionRow)
    ensures |row.id| >= 4 && row.id[..4] == "DIP-" && row.id[4..] == TemplateText(Get(Some(s), "ID"))
    ensures row.camara == "Diputados"
    ensures Nullish(Get(Some(s), "Numero")) ==> row.numero == Some(0)
    ensures !Nullish(Get(Some(s), "Numero")) ==> row.numero == ParseInt(ToText(Get(Some(s), "Numero").value))
    ensures row.legislatura == ParseInt(TemplateText(legId))
    ensures row.fecha.Some? ==> Truthy(Get(Some(s), "Fecha"))
    ensures row.fecha == Dates.ParseDateISO(iso, Get(Some(s), "Fecha"))
    ensures row.tipo == Get(Some(s), "Tipo")
    ensures row.updatedAt == now
  {
    SesionRow(
      id := "DIP-" + TemplateText(Get(Some(s), "ID")),
      camara := "Diputados",
      numero := ParseInt(ToText(Coalesce(Get(Some(s), "Numero"), Str("0")))),
      legislatura := ParseInt(TemplateText(legId)),
      fecha := Dates.ParseDateISO(iso, Get(Some(s), "Fecha")),
      tipo := Get(Some(s), "Tipo"),
      updatedAt := now)
  }

  /** Sessions with different IDs get different row ids, so the session upsert
      (conflict on `id`) never merges two sessions. */
  lemma SesionRowIdInjective(s1: Node, s2: Node, l1: Option<Node>, l2: Option<Node>,
                             iso: Node -> Option<string>, now: string)
    requires TemplateText(Get(Some(s1), "ID")) != TemplateText(Get(Some(s2), "ID"))
    ensures SesionRowOf(s1, l1, iso, now).id != SesionRowOf(s2, l2, iso, now).id
  {
    var a, b := TemplateText(Get(Some(s1), "ID")), TemplateText(Get(Some(s2), "ID"));
    assert ("DIP-" + a)[4..] == a;
    assert ("DIP-" + b)[4..] == b;
  }

  /** The write options: sessions by `id`; bills by `boletin`, leaving existing
      bills untouched. */
  const SesionesOptions: Batch.UpsertOptions := Batch.UpsertOptions("id", None, None)
  const BoletinesOptions: Batch.UpsertOptions := Batch.UpsertOptions("boletin", Some(true), None)

  // ─── One run ─────────────────────────────────────────────────────────────

  const LegislaturasUrl: string := "https://opendata.camara.cl/wscamaradiputados.asmx/getLegislaturas"

  function SesionesUrl(legId: Option<Node>): string
  {
    "https://opendata.camara.cl/wscamaradiputados.asmx/getSesiones?prmLegislaturaID=" + TemplateText(legId)
  }

  function BoletinesUrl(sesionId: Option<Node>): string
  {
    "https://opendata.camara.cl/wscamaradiputados.asmx/getSesionBoletinXML?prmSesionID=" + TemplateText(sesionId)
  }

  /** The pause after every session, found bills or not, in milliseconds. */
  const SessionPause: int := 500

  /** What happened for one session: the bills found (upserted when there are
      any), then the pause taken before the next session. */
  datatype SessionVisit = SessionVisit(sesionId: Option<Node>, boletines: seq<string>, pause: int)

  /** What happened for one period: the session rows saved (none when the
      session list could not be fetched) and the sessions visited. */
  datatype PeriodVisit = PeriodVisit(legId: Option<Node>, rows: seq<SesionRow>, sessions: seq<SessionVisit>)

  /** How a run ended: normally; with an exception (a parse error or a null
      document outside the guarded call), which the caller sees; or at a list
      whose order the code leaves unspecified, because some ID is not a number. */
  datatype Status = Finished | Aborted | OrderUnspecified

  datatype Run = Run(periods: seq<PeriodVisit>, status: Status)

  /** The bill lookup of one session. */
  function VisitSession(session: Node, fetch: string -> Option<string>, parse: string -> Option<Node>)
    : (v: SessionVisit)
    ensures v.sesionId == Get(Some(session), "ID")
    ensures v.boletines == ExtractFromSesion(fetch(BoletinesUrl(v.sesionId)), parse)
    ensures NoDup(v.boletines)
    ensures v.pause == SessionPause
  {
    var id := Get(Some(session), "ID");
    SessionVisit(id, ExtractFromSesion(fetch(BoletinesUrl(id)), parse), SessionPause)
  }

  /** The bill lookups of the selected sessions, in order. */
  function VisitSessions(sessions: seq<Node>, fetch: string -> Option<string>, parse: string -> Option<Node>)
    : (visits: seq<SessionVisit>)
    ensures |visits| == |sessions|
    ensures forall i :: 0 <= i < |visits| ==> NoDup(visits[i].boletines)
    ensures forall i :: 0 <= i < |visits| ==> visits[i].sesionId == Get(Some(sessions[i]), "ID")
    ensures forall i :: 0 <= i < |visits| ==> visits[i].pause == SessionPause
    ensures forall i :: 0 <= i < |visits| ==>
      visits[i].boletines == ExtractFromSesion(fetch(BoletinesUrl(visits[i].sesionId)), parse)
  {
    seq(|sessions|, i requires 0 <= i < |sessions| => VisitSession(sessions[i], fetch, parse))
  }

  /** The sessions of a parsed session listing, as `ensureArray` gives them. */
  function SessionList(data: Node): seq<Node>
  {
    EnsureArray(Get(Member(data, "Sesiones"), "Sesion"))
  }

  /** A period whose session list could be ordered: the rows of its 20
      most recent sessions, and each one's bill lookup, in the same order. */
  function SelectedSessions(legId: Option<Node>, sesiones: seq<Node>, fetch: string -> Option<string>,
                            parse: string -> Option<Node>, iso: Node -> Option<string>, now: string): (v: PeriodVisit)
    requires Keyed(sesiones)
    ensures var top := Items(Top(sesiones, SessionLimit));
      && v.legId == legId && |v.rows| == |top| <= SessionLimit
      && v.sessions == VisitSessions(top, fetch, parse)
      && forall i :: 0 <= i < |top| ==> v.rows[i] == SesionRowOf(top[i], legId, iso, now)
    ensures forall i :: 0 <= i < |v.rows| ==> v.rows[i].id == "DIP-" + TemplateText(v.sessions[i].sesionId)
  {
    var top := Items(Top(sesiones, SessionLimit));
    var rows := seq(|top|, i requires 0 <= i < |top| => SesionRowOf(top[i], legId, iso, now));
    var visits := VisitSessions(top, fetch, parse);
    forall i | 0 <= i < |rows|
      ensures rows[i].id == "DIP-" + TemplateText(visits[i].sesionId)
    {
      SesionRowId(top[i], legId, iso, now);
    }
    PeriodVisit(legId, rows, visits)
  }

  /** A session's row id is "DIP-" followed by the session ID. */
  lemma SesionRowId(s: Node, legId: Option<Node>, iso: Node -> Option<string>, now: string)
    ensures SesionRowOf(s, legId, iso, now).id == "DIP-" + TemplateText(Get(Some(s), "ID"))
  {
    var id := SesionRowOf(s, legId, iso, now).id;
    assert id == id[..4] + id[4..];
  }

  /** One period: fetch its sessions, keep the 20 most recent, save their
      rows, then look up each one's bills. */
  function VisitPeriod(leg: Node, fetch: string -> Option<string>, parse: string -> Option<Node>,
                       iso: Node -> Option<string>, now: string): (r: (PeriodVisit, Status))
    ensures r.1 == Finished ==> |r.0.rows| <= SessionLimit && |r.0.rows| == |r.0.sessions|
    ensures r.1 == Finished ==> forall i :: 0 <= i < |r.0.rows| ==> r.0.rows[i].id == "DIP-" + TemplateText(r.0.sessions[i].sesionId)
    ensures r.1 != Finished ==> r.0.rows == [] && r.0.sessions == []
    ensures r.0.legId == Get(Some(leg), "ID")
    ensures var sesXml := fetch(SesionesUrl(Get(Some(leg), "ID")));
      sesXml.None? || sesXml.value == "" ==> r.1 == Finished && r.0.rows == [] && r.0.sessions == []
    ensures var sesXml := fetch(SesionesUrl(Get(Some(leg), "ID")));
      sesXml.Some? && sesXml.value != "" && (parse(sesXml.value).None? || parse(sesXml.value).value.Null?)
      ==> r.1 == Aborted
    ensures var sesXml := fetch(SesionesUrl(Get(Some(leg), "ID")));
      sesXml.Some? && sesXml.value != "" && parse(sesXml.value).Some? && !parse(sesXml.value).value.Null? ==>
        var sesiones := SessionList(parse(sesXml.value).value);
        && (r.1 == OrderUnspecified <==> !Keyed(sesiones))
        && (Keyed(sesiones) ==>
              r.1 == Finished && r.0 == SelectedSessions(r.0.legId, sesiones, fetch, parse, iso, now))
  {
    var legId := Get(Some(leg), "ID");
    var sesXml := fetch(SesionesUrl(legId));
    if sesXml.None? || sesXml.value == "" then (PeriodVisit(legId, [], []), Finished)
    else
      match parse(sesXml.value)
      case None => (PeriodVisit(legId, [], []), Aborted)
      case Some(data) =>
        if data.Null? then (PeriodVisit(legId, [], []), Aborted)
        else
          var sesiones := SessionList(data);
          if !Keyed(sesiones) then (PeriodVisit(legId, [], []), OrderUnspecified)
          else (SelectedSessions(legId, sesiones, fetch, parse, iso, now), Finished)
  }

  /** The shape of the period loop, for any per-period step: the periods are
      visited in order, each as `step` gives it, until the first one that
      does not finish, whose status ends the loop. */
  function Loop<L>(step: L -> (PeriodVisit, Status), legs: seq<L>): (r: Run)
    ensures |r.periods| <= |legs|
    ensures r.status == Finished ==> |r.periods| == |legs|
    ensures forall i :: 0 <= i < |r.periods| ==> r.periods[i] == step(legs[i]).0
    ensures forall i :: 0 <= i < |r.periods| - 1 ==> step(legs[i]).1 == Finished
    ensures r.status == Finished ==> forall i :: 0 <= i < |legs| ==> step(legs[i]).1 == Finished
    ensures r.status != Finished ==> |r.periods| > 0 && r.status == step(legs[|r.periods| - 1]).1
  {
    if |legs| == 0 then Run([], Finished)
    else
      var (visit, status) := step(legs[0]);
      if status != Finished then Run([visit], status)
      else
        var rest := Loop(step, legs[1..]);
        assert forall i :: 1 <= i < |legs| ==> legs[i] == legs[1..][i - 1];
        Run([visit] + rest.periods, rest.status)
  }

  /** The loop over the selected periods: each period visited as
      `VisitPeriod` does, in order, stopping after the first that does not
      finish and ending with its status. */
  function VisitPeriods(legs: seq<Node>, fetch: string -> Option<string>, parse: string -> Option<Node>,
                        iso: Node -> Option<string>, now: string): (r: Run)
    ensures |r.periods| <= |legs|
    ensures r.status == Finished ==> |r.periods| == |legs|
    ensures forall i :: 0 <= i < |r.periods| ==> r.periods[i] == VisitPeriod(legs[i], fetch, parse, iso, now).0
    ensures forall i :: 0 <= i < |r.periods| ==> r.periods[i].legId == Get(Some(legs[i]), "ID")
    ensures forall i :: 0 <= i < |r.periods| ==> |r.periods[i].rows| <= SessionLimit
    ensures forall i :: 0 <= i < |r.periods| - 1 ==> VisitPeriod(legs[i], fetch, parse, iso, now).1 == Finished
    ensures r.status == Finished ==> forall i :: 0 <= i < |legs| ==> VisitPeriod(legs[i], fetch, parse, iso, now).1 == Finished
    ensures r.status != Finished ==>
      |r.periods| > 0 && r.status == VisitPeriod(legs[|r.periods| - 1], fetch, parse, iso, now).1
  {
    Loop((leg: Node) => VisitPeriod(leg, fetch, parse, iso, now), legs)
  }

  /** The `Legislatura` entries of a parsed period list. */
  function PeriodList(data: Node): seq<Node>
  {
    EnsureArray(Get(Member(data, "Legislaturas"), "Legislatura"))
  }

  /** `runDiscovery()`: nothing at all when the period list cannot be
      fetched; otherwise the five most recent periods, in order of decreasing
      ID, until one of them throws. */
  function RunDiscovery(fetch: string -> Option<string>, parse: string -> Option<Node>,
                        iso: Node -> Option<string>, now: string): (r: Run)
    ensures fetch(LegislaturasUrl).None? || fetch(LegislaturasUrl).value == "" ==> r == Run([], Finished)
    ensures var legXml := fetch(LegislaturasUrl);
      legXml.Some? && legXml.value != "" && (parse(legXml.value).None? || parse(legXml.value).value.Null?)
      ==> r == Run([], Aborted)
    ensures var legXml := fetch(LegislaturasUrl);
      legXml.Some? && legXml.value != "" && parse(legXml.value).Some? && !parse(legXml.value).value.Null? ==>
        var legs := PeriodList(parse(legXml.value).value);
        && (!Keyed(legs) ==> r == Run([], OrderUnspecified))
        && (Keyed(legs) ==> r == VisitPeriods(Items(Top(legs, PeriodLimit)), fetch, parse, iso, now))
    ensures |r.periods| <= PeriodLimit
    ensures forall i :: 0 <= i < |r.periods| ==> |r.periods[i].rows| <= SessionLimit
  {
    var legXml := fetch(LegislaturasUrl);
    if legXml.None? || legXml.value == "" then Run([], Finished)
    else
      match parse(legXml.value)
      case None => Run([], Aborted)
      case Some(data) =>
        if data.Null? then Run([], Aborted)
        else
          var legs := PeriodList(data);
          if !Keyed(legs) then Run([], OrderUnspecified)
          else VisitPeriods(Items(Top(legs, PeriodLimit)), fetch, parse, iso, now)
  }

  /** The periods a finished run visits are exactly the five (or fewer) with
      the largest IDs, most recent first, each visited as `VisitPeriod` does. */
  lemma RunVisitsTopPeriods(fetch: string -> Option<string>, parse: string -> Option<Node>,
                            iso: Node -> Option<string>, now: string, data: Node)
    requires fetch(LegislaturasUrl).Some? && fetch(LegislaturasUrl).value != ""
    requires parse(fetch(LegislaturasUrl).value) == Some(data) && !data.Null?
    requires Keyed(EnsureArray(Get(Member(data, "Legislaturas"), "Legislatura")))
    requires RunDiscovery(fetch, parse, iso, now).status == Finished
    ensures var top := Items(Top(EnsureArray(Get(Member(data, "Legislaturas"), "Legislatura")), PeriodLimit));
      var r := RunDiscovery(fetch, parse, iso, now);
      |r.periods| == |top| && forall i :: 0 <= i < |top| ==> r.periods[i].legId == Get(Some(top[i]), "ID")
    ensures var top := Items(Top(EnsureArray(Get(Member(data, "Legislaturas"), "Legislatura")), PeriodLimit));
      var r := RunDiscovery(fetch, parse, iso, now);
      forall i :: 0 <= i < |top| ==> r.periods[i] == VisitPeriod(top[i], fetch, parse, iso, now).0
  {
  }

  // ─── Writes ──────────────────────────────────────────────────────────────

  /** A row of `proyectos_ley` as discovery writes it: the bill number alone. */
  datatype BoletinRow = BoletinRow(boletin: string)

  function BoletinRows(bs: seq<string>): (rows: seq<BoletinRow>)
    ensures |rows| == |bs|
    ensures forall i :: 0 <= i < |bs| ==> rows[i].boletin == bs[i]
  {
    seq(|bs|, i requires 0 <= i < |bs| => BoletinRow(bs[i]))
  }

  /** The session rows of a period, upserted into `sesiones` on `id`, 100 to
      a chunk, every row once and in order; nothing when there is no row. */
  function SesionesWrites(visit: PeriodVisit): (ws: seq<Batch.Write<SesionRow>>)
    ensures ws == [] <==> visit.rows == []
    ensures forall k :: 0 <= k < |ws| ==>
      && ws[k].Upsert? && ws[k].table == "sesiones" && ws[k].onConflict == "id"
      && !ws[k].ignoreDuplicates && 0 < |ws[k].rows| <= Batch.DefaultBatchSize
    ensures Batch.Flatten(Batch.RowsOf(ws)) == visit.rows
  {
    Batch.UpsertWrites("sesiones", visit.rows, SesionesOptions)
  }

  /** The bills of a session, inserted into `proyectos_ley` on `boletin`
      only where no row exists yet (existing bills are left untouched), 100
      to a chunk; nothing when the session has none. */
  function BoletinesWrites(visit: SessionVisit): (ws: seq<Batch.Write<BoletinRow>>)
    ensures ws == [] <==> visit.boletines == []
    ensures forall k :: 0 <= k < |ws| ==>
      && ws[k].Upsert? && ws[k].table == "proyectos_ley" && ws[k].onConflict == "boletin"
      && ws[k].ignoreDuplicates && 0 < |ws[k].rows| <= Batch.DefaultBatchSize
    ensures var written := Batch.Flatten(Batch.RowsOf(ws));
      |written| == |visit.boletines| && forall i :: 0 <= i < |written| ==> written[i].boletin == visit.boletines[i]
  {
    Batch.UpsertWrites("proyectos_ley", BoletinRows(visit.boletines), BoletinesOptions)
  }
}
