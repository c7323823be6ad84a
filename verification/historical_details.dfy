/** Chamber of Deputies vote details
    (packages/etl/src/etls/legislativo/historical-details.ts): for each bill,
    the votes the Chamber lists, one header row per vote and, once the store
    has accepted the header, one row per deputy's ballot. The fetch, the
    parser, the date conversion, the clock and the store's verdicts are
    parameters. */
module HistoricalDetails {
  import opened Wrappers
  import opened Strings
  import opened Tree
  import opened Mapping
  import Dates
  import Batch

  const VotacionesBase: string := "https://opendata.camara.cl/wscamaradiputados.asmx/getVotaciones_Boletin?prmBoletin="
  const DetalleBase: string := "https://opendata.camara.cl/wscamaradiputados.asmx/getVotacion_Detalle?prmVotacionID="

  // ─── Field shapes ────────────────────────────────────────────────────────

  /** `o ? String(o) : null`: the text of a truthy value, else null. */
  function TextIfTruthy(o: Option<Node>): (r: Option<string>)
    ensures r.Some? <==> Truthy(o)
    ensures r.Some? ==> r.value == ToText(o.value)
    ensures o.Some? && o.value.Str? ==> r == if o.value.s == "" then None else Some(o.value.s)
  {
    if Truthy(o) then
      Some(ToText(o.value))
    else None
  }

  /** The two shapes a field comes in: text, or an object (here, anything
      `typeof` calls an object) carrying the text under `field`. Text gives
      itself, an object its `field` or null, anything else null. */
  function Shape(o: Option<Node>, field: string): (r: Node)
    ensures o.Some? && o.value.Str? ==> r == o.value
    ensures o.Some? && IsObject(o.value) ==> r == OrNull(Member(o.value, field))
    ensures o.None? || !(o.value.Str? || IsObject(o.value)) ==> r == Null
  {
    match o
    case None => Null
    case Some(v) =>
      if v.Str? then v
      else if IsObject(v) then OrNull(Member(v, field))
      else Null
  }

  /** A field in either shape, as text: `x ? String(x) : null` of what the
      shape gives. Text gives itself, except that empty text reads as null;
      an object gives its truthy `field` as text; anything else gives null. */
  function ShapeText(o: Option<Node>, field: string): (r: Option<string>)
    ensures o.None? || !(o.value.Str? || IsObject(o.value)) ==> r.None?
    ensures o.Some? && o.value.Str? ==> r == if o.value.s == "" then None else Some(o.value.s)
    ensures o.Some? && IsObject(o.value) ==> r == TextIfTruthy(Member(o.value, field))
  {
    TextIfTruthy(Some(Shape(o, field)))
  }

  /** `resultado`: the tally, as text or as the `#text` of an element with
      attributes. */
  function Resultado(o: Option<Node>): Option<string>
  {
    ShapeText(o, "#text")
  }

  /** `opcion_voto`: the option, as text or as the `Nombre` of an object. */
  function OpcionVoto(o: Option<Node>): Option<string>
  {
    ShapeText(o, "Nombre")
  }

  /** Both shapes say the same: plain text and the same text wrapped in an
      element read alike, and an empty text reads as null. */
  lemma ShapesAgree(s: string)
    ensures Resultado(Some(Str(s))) == Resultado(Some(Obj([Entry("#text", Str(s))])))
    ensures OpcionVoto(Some(Str(s))) == OpcionVoto(Some(Obj([Entry("Nombre", Str(s))])))
    ensures Resultado(Some(Str(s))) == if s == "" then None else Some(s)
    ensures OpcionVoto(Some(Str(s))) == if s == "" then None else Some(s)
  {
  }

  /** A number, a boolean or null in place of the field reads as null. */
  lemma ScalarShapesAreNull(v: Node)
    requires v.Num? || v.Bool? || v.Null?
    ensures Resultado(Some(v)).None? && OpcionVoto(Some(v)).None?
  {
  }

  // ─── Rows ────────────────────────────────────────────────────────────────

  /** A row of `votaciones_sala`; `id` is `parseInt(ID)`, `None` when that is NaN. */
  datatype HeaderRow = HeaderRow(
    id: Option<int>,
    boletin: string,
    fecha: Option<string>,
    materia: Option<string>,
    resultado: Option<string>,
    quorum: Option<string>,
    updatedAt: string)

  /** A row of `fact_votaciones_detalle`. */
  datatype BallotRow = BallotRow(
    votacionId: Option<int>,
    parlamentarioId: Option<int>,
    camara: string,
    nombreParlamentario: string,
    opcionVoto: Option<string>)

  /** The run's oracles: the fetch, the parser (`None` when it throws), the
      ISO date conversion, the clock and the store's verdict on a header. */
  datatype Env = Env(
    fetch: string -> Option<string>,
    parse: string -> Option<Node>,
    iso: Node -> Option<string>,
    now: string,
    acceptsHeader: HeaderRow -> bool)

  /** `parseInt(vid)` for the vote's `ID`, whatever its parsed type. */
  function VoteId(id: Node): Option<int>
  {
    ParseInt(ToText(id))
  }

  /** The header of a vote whose `ID` is truthy. */
  function Header(env: Env, boletin: string, v: Node, id: Node): (h: HeaderRow)
    ensures h.id == VoteId(id) && h.boletin == boletin && h.updatedAt == env.now
    ensures h.fecha == Dates.ParseDateISO(env.iso, Get(Some(v), "Fecha"))
    ensures h.resultado == Resultado(Get(Some(v), "Resultado"))
    ensures h.materia.Some? <==> Truthy(Get(Get(Some(v), "Tipo"), "Nombre"))
    ensures h.materia.Some? ==> h.materia.value == ToText(Get(Get(Some(v), "Tipo"), "Nombre").value)
    ensures h.quorum.Some? <==> Truthy(Get(Get(Some(v), "Quorum"), "Nombre"))
    ensures h.quorum.Some? ==> h.quorum.value == ToText(Get(Get(Some(v), "Quorum"), "Nombre").value)
  {
    HeaderRow(
      id := VoteId(id),
      boletin := boletin,
      fecha := Dates.ParseDateISO(env.iso, Get(Some(v), "Fecha")),
      materia := TextIfTruthy(Get(Get(Some(v), "Tipo"), "Nombre")),
      resultado := Resultado(Get(Some(v), "Resultado")),
      quorum := TextIfTruthy(Get(Get(Some(v), "Quorum"), "Nombre")),
      updatedAt := env.now)
  }

  /** `${o ?? ''}`: a missing part prints as nothing. */
  function PartText(o: Option<Node>): string
  {
    ToText(Coalesce(o, Str("")))
  }

  /** `nombre_parlamentario`: given name, a space, paternal surname, trimmed. */
  function DeputyName(dip: Option<Node>): string
  {
    Trim(PartText(Get(dip, "Nombre")) + " " + PartText(Get(dip, "Apellido_Paterno")))
  }

  /** With both parts given as clean non-empty text, the name is exactly
      "<Nombre> <Apellido_Paterno>". */
  lemma DeputyNameOf(nombre: string, apellido: string)
    requires |nombre| > 0 && !IsWhitespace(nombre[0])
    requires |apellido| > 0 && !IsWhitespace(apellido[|apellido| - 1])
    ensures DeputyName(Some(Obj([Entry("Nombre", Str(nombre)), Entry("Apellido_Paterno", Str(apellido))])))
      == nombre + " " + apellido
  {
    var dip := Some(Obj([Entry("Nombre", Str(nombre)), Entry("Apellido_Paterno", Str(apellido))]));
    assert Get(dip, "Nombre") == Some(Str(nombre));
    assert dip.value.entries[1..] == [Entry("Apellido_Paterno", Str(apellido))];
    assert Lookup(dip.value.entries[1..], "Apellido_Paterno") == Some(Str(apellido));
    assert Get(dip, "Apellido_Paterno") == Some(Str(apellido));
    var s := nombre + " " + apellido;
    assert s[0] == nombre[0] && s[|s| - 1] == apellido[|apellido| - 1];
    TrimClean(s);
  }

  /** With neither part present the name is empty. */
  lemma DeputyNameEmpty()
    ensures DeputyName(Some(Obj([]))) == ""
  {
    assert LeadingSpace(" ") == 1;
  }

  /** One ballot: a null ballot throws; one whose `Diputado.DIPID` is falsy
      is skipped; any other gives the deputy's row. */
  function BallotLine(vid: Option<int>, voto: Node): (l: Mapped<BallotRow>)
    ensures voto.Null? <==> l.Throws?
    ensures l.Emits? <==> !voto.Null? && Truthy(Get(Get(Some(voto), "Diputado"), "DIPID"))
    ensures l.Emits? ==>
      var dip := Get(Some(voto), "Diputado");
      && l.row.votacionId == vid
      && l.row.parlamentarioId == ParseInt(ToText(Get(dip, "DIPID").value))
      && l.row.camara == "Diputados"
      && l.row.nombreParlamentario == DeputyName(dip)
      && l.row.opcionVoto == OpcionVoto(Get(Some(voto), "OpcionVoto"))
  {
    if voto.Null? then Throws
    else
      var dip := Get(Some(voto), "Diputado");
      var dipid := Get(dip, "DIPID");
      if !Truthy(dipid) then Skips
      else
        Emits(BallotRow(
          votacionId := vid,
          parlamentarioId := ParseInt(ToText(dipid.value)),
          camara := "Diputados",
          nombreParlamentario := DeputyName(dip),
          opcionVoto := OpcionVoto(Get(Some(voto), "OpcionVoto"))))
  }

  /** The ballots of one vote: `None` when reading them throws (a null
      ballot), otherwise the rows of the ballots with a truthy `DIPID`, in
      document order. */
  function Ballots(vid: Option<int>, votos: seq<Node>): (r: Option<seq<BallotRow>>)
    ensures r.Some? <==> forall i :: 0 <= i < |votos| ==> !votos[i].Null?
    ensures r.Some? ==> r.value == Survivors((voto: Node) => BallotLine(vid, voto), votos)
    ensures r.Some? ==> |r.value| <= |votos|
    ensures r.Some? ==> forall i :: 0 <= i < |r.value| ==>
      r.value[i].votacionId == vid && r.value[i].camara == "Diputados"
  {
    var f := (voto: Node) => BallotLine(vid, voto);
    var r := MapItems(f, votos);
    if r.Some? then
      MapItemsSurvivors(f, votos);
      r
    else r
  }

  /** The number of ballots that name a deputy with a truthy `DIPID`. */
  function Identified(votos: seq<Node>): nat
  {
    if |votos| == 0 then 0
    else (if Truthy(Get(Get(Some(votos[0]), "Diputado"), "DIPID")) then 1 else 0) + Identified(votos[1..])
  }

  /** A ballot has a row exactly when it names a deputy with a truthy
      `DIPID`: the rows are as many as those ballots. */
  lemma BallotsCountIdentified(vid: Option<int>, votos: seq<Node>)
    requires Ballots(vid, votos).Some?
    ensures |Ballots(vid, votos).value| == Identified(votos)
  {
    var f := (voto: Node) => BallotLine(vid, voto);
    MapItemsCount(f, votos);
    EmittedIdentified(vid, votos);
  }

  lemma {:induction false} EmittedIdentified(vid: Option<int>, votos: seq<Node>)
    requires forall i :: 0 <= i < |votos| ==> !votos[i].Null?
    ensures Emitted((voto: Node) => BallotLine(vid, voto), votos) == Identified(votos)
  {
    if |votos| > 0 {
      EmittedIdentified(vid, votos[1..]);
    }
  }

  // ─── Votes and bills ─────────────────────────────────────────────────────

  /** What became of one vote. */
  datatype VoteOutcome =
    | Skipped                                          // no truthy `ID`
    | HeaderRejected(header: HeaderRow)                // the store refused the header
    | NoDetail(header: HeaderRow)                      // the detail document did not come
    | DetailFailed(header: HeaderRow)                  // reading the detail threw
    | Written(header: HeaderRow, ballots: seq<BallotRow>)

  /** The ballots of a vote's detail document. */
  function DetailBallots(vid: Option<int>, detail: Node): Option<seq<BallotRow>>
  {
    if detail.Null? then None
    else Ballots(vid, EnsureArray(Get(Get(Member(detail, "Votacion"), "Votos"), "Voto")))
  }

  /** One vote (not null): header first, the detail only after the store has
      accepted it, and both carry `parseInt(ID)` of the same vote. */
  function VisitVote(env: Env, boletin: string, v: Node): (o: VoteOutcome)
    requires !v.Null?
    ensures o.Skipped? <==> !Truthy(Member(v, "ID"))
    ensures !o.Skipped? ==> o.header.id == VoteId(Member(v, "ID").value)
    ensures !o.Skipped? && !o.HeaderRejected? ==> env.acceptsHeader(o.header)
    ensures o.HeaderRejected? ==> !env.acceptsHeader(o.header)
    ensures o.Written? ==> forall i :: 0 <= i < |o.ballots| ==> o.ballots[i].votacionId == o.header.id
    ensures !o.Skipped? && !o.HeaderRejected? ==>
      var det := env.fetch(DetalleBase + ToText(Member(v, "ID").value));
      && (o.NoDetail? <==> det.None? || det.value == "")
      && (o.DetailFailed? <==> det.Some? && det.value != ""
                               && (env.parse(det.value).None? || DetailBallots(o.header.id, env.parse(det.value).value).None?))
      && (o.Written? ==> Some(o.ballots) == DetailBallots(o.header.id, env.parse(det.value).value))
  {
    var id := Member(v, "ID");
    if !Truthy(id) then Skipped
    else
      var h := Header(env, boletin, v, id.value);
      if !env.acceptsHeader(h) then HeaderRejected(h)
      else
        var detXml := env.fetch(DetalleBase + ToText(id.value));
        if detXml.None? || detXml.value == "" then NoDetail(h)
        else
          match env.parse(detXml.value)
          case None => DetailFailed(h)
          case Some(detail) =>
            match DetailBallots(h.id, detail)
            case None => DetailFailed(h)
            case Some(rows) => Written(h, rows)
  }

  /** The pause after a vote whose detail step ended without an exception,
      and after every bill, in milliseconds. */
  const VotePause: int := 200
  const BillPause: int := 200

  /** The pause a vote is followed by: one once the detail step completes,
      with or without a detail document. A vote without `ID` and a rejected
      header `continue` before it, and a failed detail read is caught past it. */
  function PauseAfter(o: VoteOutcome): (ms: int)
    ensures ms == 0 || ms == VotePause
    ensures ms == VotePause <==> o.NoDetail? || o.Written?
  {
    if o.NoDetail? || o.Written? then VotePause else 0
  }

  /** A vote is followed by a pause exactly when it has an `ID`, the store
      accepts its header, and its detail document is absent or read in full. */
  lemma PauseAfterDetailStep(env: Env, boletin: string, v: Node)
    requires !v.Null?
    ensures PauseAfter(VisitVote(env, boletin, v)) == VotePause <==>
      && Truthy(Member(v, "ID"))
      && env.acceptsHeader(Header(env, boletin, v, Member(v, "ID").value))
      && var det := env.fetch(DetalleBase + ToText(Member(v, "ID").value));
         (det.None? || det.value == ""
          || (env.parse(det.value).Some?
              && DetailBallots(VoteId(Member(v, "ID").value), env.parse(det.value).value).Some?))
  {
    var id := Member(v, "ID");
    if Truthy(id) {
      var h := Header(env, boletin, v, id.value);
      if env.acceptsHeader(h) {
        var det := env.fetch(DetalleBase + ToText(id.value));
        if det.Some? && det.value != "" && env.parse(det.value).Some? {
          assert h.id == VoteId(id.value);
          assert VisitVote(env, boletin, v) ==
            if DetailBallots(h.id, env.parse(det.value).value).None? then DetailFailed(h)
            else Written(h, DetailBallots(h.id, env.parse(det.value).value).value);
        }
      }
    }
  }

  /** The ballot rows written for a vote: those of a written vote, and none
      otherwise. `Batch.DetailInserts` of them is the vote's store insert. */
  function BallotsWritten(o: VoteOutcome): seq<BallotRow>
  {
    if o.Written? then o.ballots else []
  }

  /** A rejected header means no ballot fetch and no ballot rows. */
  lemma NoDetailWithoutHeader(env: Env, boletin: string, v: Node)
    requires !v.Null?
    requires Truthy(Member(v, "ID"))
    requires !env.acceptsHeader(Header(env, boletin, v, Member(v, "ID").value))
    ensures VisitVote(env, boletin, v) == HeaderRejected(Header(env, boletin, v, Member(v, "ID").value))
    ensures BallotsWritten(VisitVote(env, boletin, v)) == []
  {
  }

  /** The vote loop: a null vote throws outside the per-vote handler and
      abandons the bill's remaining votes (`aborted`). */
  function VisitVotes(env: Env, boletin: string, vs: seq<Node>): (r: (seq<VoteOutcome>, bool))
    ensures |r.0| <= |vs|
    ensures !r.1 <==> forall i :: 0 <= i < |vs| ==> !vs[i].Null?
    ensures !r.1 ==> |r.0| == |vs|
    ensures forall i :: 0 <= i < |r.0| ==> !vs[i].Null? && r.0[i] == VisitVote(env, boletin, vs[i])
  {
    if |vs| == 0 then ([], false)
    else if vs[0].Null? then ([], true)
    else
      var rest := VisitVotes(env, boletin, vs[1..]);
      ([VisitVote(env, boletin, vs[0])] + rest.0, rest.1)
  }

  /** What became of one bill, and the one pause it ends with (bills without
      votes take it before moving on, the others after their votes or after
      the caught exception). */
  datatype BillVisit = BillVisit(boletin: string, url: string, votes: seq<VoteOutcome>, aborted: bool, pause: int)

  /** The votes of a parsed document: `ensureArray(data.Votaciones?.Votacion)`. */
  function Votaciones(data: Node): seq<Node>
  {
    EnsureArray(Get(Member(data, "Votaciones"), "Votacion"))
  }

  /** One iteration of the bill loop. No document: nothing, not aborted. A
      parse error or a null document: caught, nothing, aborted. Otherwise the
      vote loop over the document's votes. */
  function VisitBill(env: Env, boletin: string): (b: BillVisit)
    ensures b.boletin == boletin && b.url == VotacionesBase + boletin
    ensures b.pause == BillPause
    ensures var xml := env.fetch(VotacionesBase + boletin);
      xml.None? || xml.value == "" ==> b.votes == [] && !b.aborted
    ensures var xml := env.fetch(VotacionesBase + boletin);
      xml.Some? && xml.value != "" && (env.parse(xml.value).None? || env.parse(xml.value).value.Null?)
      ==> b.votes == [] && b.aborted
    ensures var xml := env.fetch(VotacionesBase + boletin);
      xml.Some? && xml.value != "" && env.parse(xml.value).Some? && !env.parse(xml.value).value.Null? ==>
        (b.votes, b.aborted) == VisitVotes(env, boletin, Votaciones(env.parse(xml.value).value))
  {
    var url := VotacionesBase + boletin;
    var xml := env.fetch(url);
    if xml.None? || xml.value == "" then BillVisit(boletin, url, [], false, BillPause)
    else
      match env.parse(xml.value)
      case None => BillVisit(boletin, url, [], true, BillPause)
      case Some(data) =>
        if data.Null? then BillVisit(boletin, url, [], true, BillPause)
        else
          var r := VisitVotes(env, boletin, Votaciones(data));
          BillVisit(boletin, url, r.0, r.1, BillPause)
  }

  /** `runHistoricalDetails()`: `bills` is the store's answer to the query for
      bills filed since 2022-03-11; on an error the run does nothing. */
  function RunHistoricalDetails(env: Env, bills: Result<seq<string>>): (r: seq<BillVisit>)
    ensures bills.Err? ==> r == []
    ensures bills.Ok? ==> |r| == |bills.value|
    ensures bills.Ok? ==> forall i :: 0 <= i < |r| ==> r[i] == VisitBill(env, bills.value[i])
  {
    match bills
    case Err(_) => []
    case Ok(bs) => seq(|bs|, i requires 0 <= i < |bs| => VisitBill(env, bs[i]))
  }

  /** Across a whole run, every ballot row written carries the id of a header
      the store accepted. */
  lemma EveryBallotHasAcceptedHeader(env: Env, bills: Result<seq<string>>, i: nat, j: nat, k: nat)
    requires i < |RunHistoricalDetails(env, bills)|
    requires j < |RunHistoricalDetails(env, bills)[i].votes|
    requires k < |BallotsWritten(RunHistoricalDetails(env, bills)[i].votes[j])|
    ensures var o := RunHistoricalDetails(env, bills)[i].votes[j];
      env.acceptsHeader(o.header) && BallotsWritten(o)[k].votacionId == o.header.id
  {
  }
}
