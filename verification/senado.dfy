/** Senator roster (packages/etl/src/etls/legislativo/senado.ts): the
    Senate's list of sitting senators, one row per senator. */
module Senado {
  import opened Wrappers
  import opened Strings
  import opened Tree
  import opened Mapping
  import Batch

  const RosterUrl: string := "https://tramitacion.senado.cl/wspublico/senadores_vigentes.php"

  /** Upserts replace the row with the same `id`. */
  const SenadoresOptions: Batch.UpsertOptions := Batch.UpsertOptions("id", None, None)

  /** A row of `senadores`. */
  datatype SenadorRow = SenadorRow(
    id: Option<int>,
    nombre: Node,
    apellidoPaterno: Node,
    apellidoMaterno: Node,
    partido: Node,
    region: Node,
    circunscripcion: Node,
    email: Node,
    telefono: Node,
    urlFoto: Node,
    updatedAt: string)

  /** The `senador` list of the roster document. */
  function Roster(data: Node): seq<Node>
  {
    EnsureArray(Get(Member(data, "senadores"), "senador"))
  }

  /** One roster entry: every field is copied or null, the phone comes from
      `FONO` and the photo from `FOTO`. A null entry throws out of the loop
      (its error handler reads `s.PARLID` again); nothing else can fail. */
  function SenadorItem(now: string, s: Node): (m: Mapped<SenadorRow>)
    ensures s.Null? <==> m.Throws?
    ensures !m.Skips?
    ensures m.Emits? ==>
      && m.row.id == ParseInt(TemplateText(Get(Some(s), "PARLID")))
      && m.row.nombre == OrNull(Get(Some(s), "PARLNOMBRE"))
      && m.row.apellidoPaterno == OrNull(Get(Some(s), "PARLAPELLIDOPATERNO"))
      && m.row.apellidoMaterno == OrNull(Get(Some(s), "PARLAPELLIDOMATERNO"))
      && m.row.partido == OrNull(Get(Some(s), "PARTIDO"))
      && m.row.region == OrNull(Get(Some(s), "REGION"))
      && m.row.circunscripcion == OrNull(Get(Some(s), "CIRCUNSCRIPCION"))
      && m.row.email == OrNull(Get(Some(s), "EMAIL"))
      && m.row.telefono == OrNull(Get(Some(s), "FONO"))
      && m.row.urlFoto == OrNull(Get(Some(s), "FOTO"))
      && m.row.updatedAt == now
  {
    if s.Null? then Throws
    else
      Emits(SenadorRow(
        id := ParseInt(TemplateText(Get(Some(s), "PARLID"))),
        nombre := OrNull(Get(Some(s), "PARLNOMBRE")),
        apellidoPaterno := OrNull(Get(Some(s), "PARLAPELLIDOPATERNO")),
        apellidoMaterno := OrNull(Get(Some(s), "PARLAPELLIDOMATERNO")),
        partido := OrNull(Get(Some(s), "PARTIDO")),
        region := OrNull(Get(Some(s), "REGION")),
        circunscripcion := OrNull(Get(Some(s), "CIRCUNSCRIPCION")),
        email := OrNull(Get(Some(s), "EMAIL")),
        telefono := OrNull(Get(Some(s), "FONO")),
        urlFoto := OrNull(Get(Some(s), "FOTO")),
        updatedAt := now))
  }

  /** A senator with only an id: the id is read back and every other column
      is null. */
  lemma BareSenator(now: string, id: int)
    ensures SenadorItem(now, Obj([Entry("PARLID", Str(IntToString(id)))]))
      == Emits(SenadorRow(Some(id), Null, Null, Null, Null, Null, Null, Null, Null, Null, now))
  {
    ParseIntRoundTrip(id);
  }

  /** `runSenado()`: `xml` is the outcome of the retried fetch of `RosterUrl`. */
  function RunSenado(xml: Result<string>, parse: string -> Option<Node>, now: string): (run: RosterRun<SenadorRow>)
    ensures run.Unavailable? <==> xml.Err?
    ensures run.Processed? ==> xml.Ok? && parse(xml.value).Some? && |run.rows| <= |Roster(parse(xml.value).value)|
    ensures run.Processed? ==> forall k :: 0 <= k < |run.rows| ==>
      exists i :: 0 <= i < |Roster(parse(xml.value).value)| && SenadorItem(now, Roster(parse(xml.value).value)[i]) == Emits(run.rows[k])
  {
    RunRoster(xml, parse, Roster, (s: Node) => SenadorItem(now, s))
  }

  /** With no null entry, every roster entry yields exactly one row, in
      roster order; a null entry anywhere means nothing is written. */
  lemma OneRowPerSenator(xml: Result<string>, parse: string -> Option<Node>, now: string)
    requires xml.Ok? && parse(xml.value).Some? && !parse(xml.value).value.Null?
    requires |Roster(parse(xml.value).value)| > 0
    ensures var ss := Roster(parse(xml.value).value);
      var run := RunSenado(xml, parse, now);
      && ((forall i :: 0 <= i < |ss| ==> !ss[i].Null?) ==>
            run.Processed? && |run.rows| == |ss|
            && forall i :: 0 <= i < |ss| ==> run.rows[i] == SenadorItem(now, ss[i]).row)
      && ((exists i :: 0 <= i < |ss| && ss[i].Null?) ==> RosterWrites(run) == [])
  {
    var f := (s: Node) => SenadorItem(now, s);
    var ss := Roster(parse(xml.value).value);
    if forall i :: 0 <= i < |ss| ==> !ss[i].Null? {
      MapItemsAllEmit(f, ss);
    }
  }

  /** The store writes of a run: its rows upserted into `senadores` on `id`,
      100 to a chunk, every row once and in order; nothing at all when the
      run produced no row. */
  function SenadoresWrites(run: RosterRun<SenadorRow>): (ws: seq<Batch.Write<SenadorRow>>)
    ensures ws == [] <==> RosterWrites(run) == []
    ensures forall k :: 0 <= k < |ws| ==>
      && ws[k].Upsert? && ws[k].table == "senadores" && ws[k].onConflict == "id"
      && !ws[k].ignoreDuplicates && 0 < |ws[k].rows| <= Batch.DefaultBatchSize
    ensures Batch.Flatten(Batch.RowsOf(ws)) == RosterWrites(run)
  {
    Batch.UpsertWrites("senadores", RosterWrites(run), SenadoresOptions)
  }
}
