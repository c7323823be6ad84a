/** Tenders (packages/etl/src/etls/mercadopublico/licitaciones.ts): the
    previous day's tenders from the procurement API, one row per tender that
    has a code. */
module Licitaciones {
  import opened Wrappers
  import opened Tree
  import opened Mapping
  import Dates
  import Batch

  const LicitacionesBase: string := "https://api.mercadopublico.cl/servicios/v1/publico/licitaciones.json?fecha="

  /** Upserts replace the row with the same `codigo`. */
  const LicitacionesOptions: Batch.UpsertOptions := Batch.UpsertOptions("codigo", None, None)

  function LicitacionesUrl(date: string, ticket: string): string
  {
    LicitacionesBase + date + "&ticket=" + ticket
  }

  /** A row of `licitaciones`. */
  datatype LicitacionRow = LicitacionRow(
    codigo: Node,
    nombre: Node,
    estado: Node,
    compradorNombre: Node,
    compradorCodigo: Node,
    fechaPublicacion: Option<string>,
    fechaCierre: Option<string>,
    moneda: Node,
    montoEstimado: Node,
    tipo: Node)

  /** `item.CodigoExterno ?? item.CodigoExternal`: the second spelling is
      read only when the first is null or absent, not when it is merely
      falsy. */
  function Codigo(item: Node): (c: Option<Node>)
    ensures !Nullish(Get(Some(item), "CodigoExterno")) ==> c == Get(Some(item), "CodigoExterno")
    ensures Nullish(Get(Some(item), "CodigoExterno")) ==> c == Get(Some(item), "CodigoExternal")
  {
    var externo := Get(Some(item), "CodigoExterno");
    if Nullish(externo) then Get(Some(item), "CodigoExternal") else externo
  }

  /** One listed tender: a null tender throws out of the loop (its error
      handler reads `item.CodigoExterno`); a tender without a truthy code is
      skipped; every other tender is a row. */
  function LicitacionItem(iso: Node -> Option<string>, item: Node): (m: Mapped<LicitacionRow>)
    ensures item.Null? <==> m.Throws?
    ensures m.Skips? <==> !item.Null? && !Truthy(Codigo(item))
    ensures m.Emits? ==>
      && Some(m.row.codigo) == Codigo(item)
      && m.row.nombre == OrNull(Get(Some(item), "Nombre"))
      && m.row.estado == OrNull(Get(Some(item), "Estado"))
      && m.row.compradorNombre == OrNull(Get(Get(Some(item), "Comprador"), "NombreOrganismo"))
      && m.row.compradorCodigo == OrNull(Get(Get(Some(item), "Comprador"), "CodigoOrganismo"))
      && m.row.fechaPublicacion == Dates.ParseDateISO(iso, Get(Some(item), "FechaCreacion"))
      && m.row.fechaCierre == Dates.ParseDateISO(iso, Get(Some(item), "FechaCierre"))
      && m.row.moneda == OrNull(Get(Some(item), "Moneda"))
      && m.row.montoEstimado == OrNull(Get(Some(item), "MontoEstimado"))
      && m.row.tipo == OrNull(Get(Some(item), "Tipo"))
  {
    if item.Null? then Throws
    else
      var codigo := Codigo(item);
      if !Truthy(codigo) then Skips
      else
        Emits(LicitacionRow(
          codigo := codigo.value,
          nombre := OrNull(Get(Some(item), "Nombre")),
          estado := OrNull(Get(Some(item), "Estado")),
          compradorNombre := OrNull(Get(Get(Some(item), "Comprador"), "NombreOrganismo")),
          compradorCodigo := OrNull(Get(Get(Some(item), "Comprador"), "CodigoOrganismo")),
          fechaPublicacion := Dates.ParseDateISO(iso, Get(Some(item), "FechaCreacion")),
          fechaCierre := Dates.ParseDateISO(iso, Get(Some(item), "FechaCierre")),
          moneda := OrNull(Get(Some(item), "Moneda")),
          montoEstimado := OrNull(Get(Some(item), "MontoEstimado")),
          tipo := OrNull(Get(Some(item), "Tipo"))))
  }

  /** An empty `CodigoExterno` hides a valid `CodigoExternal`: the tender is
      skipped. */
  lemma EmptyExternoHidesExternal(iso: Node -> Option<string>, code: string)
    ensures LicitacionItem(iso, Obj([Entry("CodigoExterno", Str("")), Entry("CodigoExternal", Str(code))])).Skips?
  {
  }

  /** A tender with only `CodigoExternal` uses it. */
  lemma ExternalFallback(iso: Node -> Option<string>, code: string)
    requires code != ""
    ensures var m := LicitacionItem(iso, Obj([Entry("CodigoExternal", Str(code))]));
      m.Emits? && m.row.codigo == Str(code)
  {
  }

  /** `processLicitaciones(data)`: no `Listado` gives no rows; otherwise the
      rows of the tenders with a code, in order. `None` when the loop throws:
      a null tender, or a `Listado` that cannot be iterated. */
  function ProcessLicitaciones(iso: Node -> Option<string>, data: Node): (r: Option<seq<LicitacionRow>>)
    ensures !Truthy(Get(Some(data), "Listado")) ==> r == Some([])
    ensures Truthy(Get(Some(data), "Listado")) ==>
      match Iterate(Get(Some(data), "Listado").value)
      case None => r.None?
      case Some(items) =>
        && (r.Some? <==> forall i :: 0 <= i < |items| ==> !items[i].Null?)
        && (r.Some? ==> |r.value| == Emitted((item: Node) => LicitacionItem(iso, item), items))
        && (r.Some? ==> r.value == Survivors((item: Node) => LicitacionItem(iso, item), items))
  {
    var listado := Get(Some(data), "Listado");
    if !Truthy(listado) then Some([])
    else
      match Iterate(listado.value)
      case None => None
      case Some(items) =>
        var f := (item: Node) => LicitacionItem(iso, item);
        var r := MapItems(f, items);
        if r.Some? then
          MapItemsCount(f, items);
          MapItemsSurvivors(f, items);
          r
        else r
  }

  /** Surviving tenders keep their relative order: the rows of two
      consecutive stretches of the list are the rows of the first stretch
      followed by those of the second. */
  lemma SurvivorsKeepOrder(iso: Node -> Option<string>, a: seq<Node>, b: seq<Node>)
    requires forall i :: 0 <= i < |a| ==> !a[i].Null?
    requires forall i :: 0 <= i < |b| ==> !b[i].Null?
    ensures var f := (item: Node) => LicitacionItem(iso, item);
      MapItems(f, a + b) == Some(MapItems(f, a).value + MapItems(f, b).value)
  {
    var f := (item: Node) => LicitacionItem(iso, item);
    MapItemsAppend(f, a, b);
  }

  /** How the run ends: no data (the fetch or `JSON.parse` failed); the loop
      threw; no tender to write; or the rows were upserted. */
  datatype LicitacionesRun = NoData | LoopThrew | NothingToWrite | Wrote(rows: seq<LicitacionRow>)

  /** `runLicitaciones()` for the day `date` (yesterday, as `DDMMYYYY`):
      `fetch` is the retried fetch of a URL, `parseJson` is `JSON.parse`
      (`None` when it throws). */
  function RunLicitaciones(date: string, ticket: string, fetch: string -> Result<string>,
                           parseJson: string -> Option<Node>, iso: Node -> Option<string>): (run: LicitacionesRun)
    ensures var text := fetch(LicitacionesUrl(date, ticket));
      run.NoData? <==> text.Err? || parseJson(text.value).None?
    ensures var text := fetch(LicitacionesUrl(date, ticket));
      run.Wrote? ==> run.rows != [] && Some(run.rows) == ProcessLicitaciones(iso, parseJson(text.value).value)
    ensures var text := fetch(LicitacionesUrl(date, ticket));
      run.NothingToWrite? <==> text.Ok? && parseJson(text.value).Some?
                               && ProcessLicitaciones(iso, parseJson(text.value).value) == Some([])
    ensures var text := fetch(LicitacionesUrl(date, ticket));
      run.LoopThrew? <==> text.Ok? && parseJson(text.value).Some?
                          && ProcessLicitaciones(iso, parseJson(text.value).value).None?
    ensures var text := fetch(LicitacionesUrl(date, ticket));
      text.Ok? && parseJson(text.value).Some? && ProcessLicitaciones(iso, parseJson(text.value).value).Some?
      && ProcessLicitaciones(iso, parseJson(text.value).value).value != [] ==>
      run == Wrote(ProcessLicitaciones(iso, parseJson(text.value).value).value)
  {
    var text := fetch(LicitacionesUrl(date, ticket));
    if text.Err? || parseJson(text.value).None? then NoData
    else
      match ProcessLicitaciones(iso, parseJson(text.value).value)
      case None => LoopThrew
      case Some(rows) => if |rows| == 0 then NothingToWrite else Wrote(rows)
  }

  /** The store writes of a run: its rows upserted into `licitaciones` on
      `codigo`, 100 to a chunk, every row once and in order; nothing for a
      run that did not get as far. */
  function LicitacionesWrites(run: LicitacionesRun): (ws: seq<Batch.Write<LicitacionRow>>)
    ensures !run.Wrote? ==> ws == []
    ensures forall k :: 0 <= k < |ws| ==>
      && ws[k].Upsert? && ws[k].table == "licitaciones" && ws[k].onConflict == "codigo"
      && !ws[k].ignoreDuplicates && |ws[k].rows| <= Batch.DefaultBatchSize
    ensures run.Wrote? ==> Batch.Flatten(Batch.RowsOf(ws)) == run.rows
  {
    if run.Wrote? then Batch.UpsertWrites("licitaciones", run.rows, LicitacionesOptions) else []
  }
}
