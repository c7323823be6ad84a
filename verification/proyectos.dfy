/** Bill refresh (packages/etl/src/etls/legislativo/proyectos.ts): for each
    bill the store knows (or a two-bill bootstrap list when it knows none),
    fetch the Senate's processing record and upsert one row per described
    bill. */
module Proyectos {
  import opened Wrappers
  import opened Strings
  import opened Tree
  import opened Mapping
  import Dates
  import Batch

  /** The bills processed when the store returns none. */
  const Bootstrap: seq<string> := ["8575-07", "16197-07"]

  /** Pause after every bill, fetched or not, in milliseconds. */
  const Pause: int := 500

  const TramitacionBase: string := "https://tramitacion.senado.cl/wspublico/tramitacion.php?boletin="

  /** Upserts replace the row with the same `boletin`. */
  const ProyectosOptions: Batch.UpsertOptions := Batch.UpsertOptions("boletin", None, None)

  /** The bills to process: the store's list, or the bootstrap list when the
      query failed or came back empty. */
  function Boletines(reply: Result<seq<string>>): (bs: seq<string>)
    ensures reply.Err? || reply.value == [] ==> bs == Bootstrap
    ensures reply.Ok? && reply.value != [] ==> bs == reply.value
    ensures |bs| > 0
  {
    if reply.Ok? && |reply.value| > 0 then reply.value else Bootstrap
  }

  /** `boletinId.split('-')[0]`: the bill number without its check digit. */
  function CleanId(boletin: string): (id: string)
    ensures id == BeforeFirst(boletin, '-')
  {
    SplitHead(boletin, '-');
    Split(boletin, '-')[0]
  }

  /** "<number>-<check digit>" queries as "<number>". */
  lemma CleanIdOf(number: string, check: string)
    requires '-' !in number
    ensures CleanId(number + "-" + check) == number
  {
    SplitLeadingPart(number, '-', check);
    assert number + "-" + check == number + ['-'] + check;
  }

  function TramitacionUrl(boletin: string): string
  {
    TramitacionBase + CleanId(boletin)
  }

  /** A row of `proyectos_ley`. Optional columns hold the parsed value or null. */
  datatype ProyectoRow = ProyectoRow(
    boletin: Node,
    titulo: Node,
    fechaIngreso: Option<string>,
    iniciativa: Node,
    camaraOrigen: Node,
    urgenciaActual: Node,
    etapa: Node,
    linkTramitacion: Node,
    updatedAt: string)

  /** `parseDateDMY(desc.fecha_ingreso)`: falsy gives null, text is reshaped,
      and anything else has no `split` and throws. */
  function FechaIngreso(o: Option<Node>): (r: Option<Option<string>>)
    ensures !Truthy(o) ==> r == Some(None)
    ensures Truthy(o) && o.value.Str? ==> r == Some(Dates.ParseDateDMY(Some(o.value.s)))
    ensures Truthy(o) && !o.value.Str? ==> r.None?
  {
    if !Truthy(o) then Some(None)
    else if o.value.Str? then Some(Dates.ParseDateDMY(Some(o.value.s)))
    else None
  }

  /** One entry of the `proyecto` list. A null entry throws; an entry whose
      `descripcion.boletin` is falsy is skipped; otherwise the description's
      fields become the row, with `link_mensaje_mocion` as the link. */
  function ProyectoItem(now: string, p: Node): (m: Mapped<ProyectoRow>)
    ensures m.Throws? <==> p.Null? || (Truthy(Get(Get(Some(p), "descripcion"), "boletin"))
                                       && FechaIngreso(Get(Get(Some(p), "descripcion"), "fecha_ingreso")).None?)
    ensures m.Skips? <==> !p.Null? && !Truthy(Get(Get(Some(p), "descripcion"), "boletin"))
    ensures m.Emits? <==> !p.Null? && Truthy(Get(Get(Some(p), "descripcion"), "boletin"))
                          && FechaIngreso(Get(Get(Some(p), "descripcion"), "fecha_ingreso")).Some?
    ensures m.Emits? ==> var desc := Get(Some(p), "descripcion");
      && Some(m.row.boletin) == Get(desc, "boletin") && Truthy(Get(desc, "boletin"))
      && Some(m.row.fechaIngreso) == FechaIngreso(Get(desc, "fecha_ingreso"))
      && m.row.titulo == OrNull(Get(desc, "titulo"))
      && m.row.iniciativa == OrNull(Get(desc, "iniciativa"))
      && m.row.camaraOrigen == OrNull(Get(desc, "camara_origen"))
      && m.row.urgenciaActual == OrNull(Get(desc, "urgencia_actual"))
      && m.row.etapa == OrNull(Get(desc, "etapa"))
      && m.row.linkTramitacion == OrNull(Get(desc, "link_mensaje_mocion"))
      && m.row.updatedAt == now
  {
    if p.Null? then Throws
    else
      var desc := Get(Some(p), "descripcion");
      var boletin := Get(desc, "boletin");
      if !Truthy(boletin) then Skips
      else
        match FechaIngreso(Get(desc, "fecha_ingreso"))
        case None => Throws
        case Some(fecha) =>
          Emits(ProyectoRow(
            boletin := boletin.value,
            titulo := OrNull(Get(desc, "titulo")),
            fechaIngreso := fecha,
            iniciativa := OrNull(Get(desc, "iniciativa")),
            camaraOrigen := OrNull(Get(desc, "camara_origen")),
            urgenciaActual := OrNull(Get(desc, "urgencia_actual")),
            etapa := OrNull(Get(desc, "etapa")),
            linkTramitacion := OrNull(Get(desc, "link_mensaje_mocion")),
            updatedAt := now))
  }

  /** A description with only a bill number and an entry date: the date is
      reshaped by `parseDateDMY` and every other column is null. */
  lemma MinimalDescription(now: string, boletin: string, date: string)
    requires boletin != "" && date != ""
    ensures var desc := Obj([Entry("boletin", Str(boletin)), Entry("fecha_ingreso", Str(date))]);
      ProyectoItem(now, Obj([Entry("descripcion", desc)]))
      == Emits(ProyectoRow(Str(boletin), Null, Dates.ParseDateDMY(Some(date)), Null, Null, Null, Null, Null, now))
  {
    var desc := Obj([Entry("boletin", Str(boletin)), Entry("fecha_ingreso", Str(date))]);
    assert desc.entries[1..] == [Entry("fecha_ingreso", Str(date))];
    assert Lookup(desc.entries[1..], "fecha_ingreso") == Some(Str(date));
  }

  /** What became of one bill: the rows upserted (none when the list was
      empty), whether reading the record threw, in which case nothing is
      written, and the pause that follows the bill. */
  datatype BillVisit = BillVisit(boletin: string, url: string, rows: seq<ProyectoRow>, failed: bool, pause: int)

  /** The `proyecto` entries of a parsed processing record. */
  function Entries(data: Node): seq<Node>
  {
    EnsureArray(Get(Member(data, "proyectos"), "proyecto"))
  }

  function VisitBill(fetch: string -> Option<string>, parse: string -> Option<Node>, now: string,
                     boletin: string): (b: BillVisit)
    ensures b.boletin == boletin && b.url == TramitacionUrl(boletin)
    ensures b.pause == Pause
    ensures b.failed ==> b.rows == []
    ensures var xml := fetch(TramitacionUrl(boletin));
      xml.None? || xml.value == "" ==> !b.failed && b.rows == []
    ensures var xml := fetch(TramitacionUrl(boletin));
      xml.Some? && xml.value != "" && (parse(xml.value).None? || parse(xml.value).value.Null?) ==> b.failed
    ensures var xml := fetch(TramitacionUrl(boletin));
      xml.Some? && xml.value != "" && parse(xml.value).Some? && !parse(xml.value).value.Null? ==>
      var r := MapItems((p: Node) => ProyectoItem(now, p), Entries(parse(xml.value).value));
      && (b.failed <==> r.None?)
      && (!b.failed ==> Some(b.rows) == r)
  {
    var url := TramitacionUrl(boletin);
    var xml := fetch(url);
    if xml.None? || xml.value == "" then BillVisit(boletin, url, [], false, Pause)
    else
      match parse(xml.value)
      case None => BillVisit(boletin, url, [], true, Pause)
      case Some(data) =>
        if data.Null? then BillVisit(boletin, url, [], true, Pause)
        else
          match MapItems((p: Node) => ProyectoItem(now, p), Entries(data))
          case None => BillVisit(boletin, url, [], true, Pause)
          case Some(rows) => BillVisit(boletin, url, rows, false, Pause)
  }

  /** The store writes of one bill: its rows upserted into `proyectos_ley`
      on `boletin`, 100 to a chunk, every row once and in order; nothing for
      a failed bill or one without rows. */
  function BillWrites(b: BillVisit): (ws: seq<Batch.Write<ProyectoRow>>)
    ensures ws == [] <==> b.rows == []
    ensures forall k :: 0 <= k < |ws| ==>
      && ws[k].Upsert? && ws[k].table == "proyectos_ley" && ws[k].onConflict == "boletin"
      && !ws[k].ignoreDuplicates && 0 < |ws[k].rows| <= Batch.DefaultBatchSize
    ensures Batch.Flatten(Batch.RowsOf(ws)) == b.rows
  {
    Batch.UpsertWrites("proyectos_ley", b.rows, ProyectosOptions)
  }

  /** `runProyectos()`: one visit per bill of `Boletines(reply)`, in order. */
  function RunProyectos(fetch: string -> Option<string>, parse: string -> Option<Node>, now: string,
                        reply: Result<seq<string>>): (r: seq<BillVisit>)
    ensures |r| == |Boletines(reply)| && |r| > 0
    ensures forall i :: 0 <= i < |r| ==> r[i] == VisitBill(fetch, parse, now, Boletines(reply)[i])
  {
    var bs := Boletines(reply);
    seq(|bs|, i requires 0 <= i < |bs| => VisitBill(fetch, parse, now, bs[i]))
  }

  /** With an empty store, exactly the two bootstrap bills are queried, by
      their numbers without check digit. */
  lemma EmptyStoreQueriesBootstrap(fetch: string -> Option<string>, parse: string -> Option<Node>, now: string)
    ensures var r := RunProyectos(fetch, parse, now, Ok([]));
      |r| == 2
      && r[0].url == TramitacionBase + "8575"
      && r[1].url == TramitacionBase + "16197"
  {
    CleanIdOf("8575", "07");
    CleanIdOf("16197", "07");
    assert "8575" + "-" + "07" == "8575-07";
    assert "16197" + "-" + "07" == "16197-07";
  }
}
