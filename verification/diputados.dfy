/** Deputy roster (packages/etl/src/etls/legislativo/diputados.ts): the
    Chamber's list of sitting deputies, one row per deputy, with the party
    of the deputy's last militancy. */
module Diputados {
  import opened Wrappers
  import opened Strings
  import opened Tree
  import opened Mapping
  import Batch

  const RosterUrl: string := "https://opendata.camara.cl/wscamaradiputados.asmx/getDiputados_Vigentes"
  const PhotoPrefix: string := "http://www.camara.cl/img.aspx?pId="
  const PhotoSuffix: string := "&pT=1"

  /** Upserts replace the row with the same `id`. */
  const DiputadosOptions: Batch.UpsertOptions := Batch.UpsertOptions("id", None, None)

  /** A row of `diputados`. */
  datatype DiputadoRow = DiputadoRow(
    id: Option<int>,
    nombre: Node,
    apellidoPaterno: Node,
    apellidoMaterno: Node,
    partido: Node,
    distrito: Node,
    urlFoto: string,
    updatedAt: string)

  /** The `Diputado` list of the roster document. */
  function Roster(data: Node): seq<Node>
  {
    EnsureArray(Get(Member(data, "Diputados"), "Diputado"))
  }

  /** The militancies of a deputy, as a list. */
  function Militancias(d: Node): seq<Node>
  {
    EnsureArray(Get(Get(Some(d), "Militancias_Periodos"), "Militancia"))
  }

  /** The party: the `Partido` of the last militancy (null when missing), or
      null with no militancy at all; `None` when the last militancy is null,
      whose `Partido` cannot be read. */
  function Partido(d: Node): (r: Option<Node>)
    ensures Militancias(d) == [] ==> r == Some(Null)
    ensures Militancias(d) != [] ==>
      var last := Militancias(d)[|Militancias(d)| - 1];
      (last.Null? <==> r.None?) && (!last.Null? ==> r == Some(OrNull(Member(last, "Partido"))))
  {
    var ms := Militancias(d);
    if |ms| == 0 then Some(Null)
    else
      var last := ms[|ms| - 1];
      if last.Null? then None else Some(OrNull(Member(last, "Partido")))
  }

  /** `http://www.camara.cl/img.aspx?pId=${d.DIPID}&pT=1`. */
  function PhotoUrl(d: Node): (u: string)
    ensures |u| == |PhotoPrefix| + |TemplateText(Get(Some(d), "DIPID"))| + |PhotoSuffix|
    ensures u[..|PhotoPrefix|] == PhotoPrefix
    ensures u[|PhotoPrefix|..|u| - |PhotoSuffix|] == TemplateText(Get(Some(d), "DIPID"))
    ensures u[|u| - |PhotoSuffix|..] == PhotoSuffix
  {
    var u := PhotoPrefix + TemplateText(Get(Some(d), "DIPID")) + PhotoSuffix;
    assert u[|PhotoPrefix|..|u| - |PhotoSuffix|] == TemplateText(Get(Some(d), "DIPID"));
    u
  }

  /** One roster entry. A null entry throws out of the loop (its error
      handler reads `d.DIPID` again); an entry whose last militancy is null
      throws inside the handler and is skipped; any other entry is a row. */
  function DiputadoItem(now: string, d: Node): (m: Mapped<DiputadoRow>)
    ensures d.Null? <==> m.Throws?
    ensures m.Skips? <==> !d.Null? && Partido(d).None?
    ensures m.Emits? ==>
      && m.row.id == ParseInt(TemplateText(Get(Some(d), "DIPID")))
      && m.row.nombre == OrNull(Get(Some(d), "Nombre"))
      && m.row.apellidoPaterno == OrNull(Get(Some(d), "Apellido_Paterno"))
      && m.row.apellidoMaterno == OrNull(Get(Some(d), "Apellido_Materno"))
      && Some(m.row.partido) == Partido(d)
      && m.row.distrito == Null
      && m.row.urlFoto == PhotoUrl(d)
      && m.row.updatedAt == now
  {
    if d.Null? then Throws
    else
      match Partido(d)
      case None => Skips
      case Some(partido) =>
        Emits(DiputadoRow(
          id := ParseInt(TemplateText(Get(Some(d), "DIPID"))),
          nombre := OrNull(Get(Some(d), "Nombre")),
          apellidoPaterno := OrNull(Get(Some(d), "Apellido_Paterno")),
          apellidoMaterno := OrNull(Get(Some(d), "Apellido_Materno")),
          partido := partido,
          distrito := Null,
          urlFoto := PhotoUrl(d),
          updatedAt := now))
  }

  /** A deputy with an id given as text and several militancies: the id is
      that number, the photo link embeds the text, and the party is that of
      the last militancy, whatever the earlier ones say. */
  lemma DeputyOfLastParty(now: string, id: nat, earlier: seq<Node>, party: string)
    ensures var d := Obj([Entry("DIPID", Str(IntToString(id))),
                          Entry("Militancias_Periodos", Obj([Entry("Militancia",
                            Arr(earlier + [Obj([Entry("Partido", Str(party))])]))]))]);
      && DiputadoItem(now, d).Emits?
      && DiputadoItem(now, d).row.id == Some(id)
      && DiputadoItem(now, d).row.partido == Str(party)
      && DiputadoItem(now, d).row.urlFoto == PhotoPrefix + IntToString(id) + PhotoSuffix
  {
    var ms := earlier + [Obj([Entry("Partido", Str(party))])];
    var d := Obj([Entry("DIPID", Str(IntToString(id))),
                  Entry("Militancias_Periodos", Obj([Entry("Militancia", Arr(ms))]))]);
    assert d.entries[1..] == [Entry("Militancias_Periodos", Obj([Entry("Militancia", Arr(ms))]))];
    assert Lookup(d.entries[1..], "Militancias_Periodos") == Some(Obj([Entry("Militancia", Arr(ms))]));
    assert Get(Some(d), "Militancias_Periodos") == Some(Obj([Entry("Militancia", Arr(ms))]));
    assert Militancias(d) == ms;
    assert Get(Some(d), "DIPID") == Some(Str(IntToString(id)));
    ParseIntRoundTrip(id);
  }

  /** `runDiputados()`: `xml` is the outcome of the retried fetch of
      `RosterUrl`. */
  function RunDiputados(xml: Result<string>, parse: string -> Option<Node>, now: string): (run: RosterRun<DiputadoRow>)
    ensures run.Unavailable? <==> xml.Err?
    ensures run.Processed? ==> xml.Ok? && parse(xml.value).Some? && |run.rows| <= |Roster(parse(xml.value).value)|
    ensures run.Processed? ==> forall k :: 0 <= k < |run.rows| ==>
      exists i :: 0 <= i < |Roster(parse(xml.value).value)| && DiputadoItem(now, Roster(parse(xml.value).value)[i]) == Emits(run.rows[k])
  {
    RunRoster(xml, parse, Roster, (d: Node) => DiputadoItem(now, d))
  }

  /** With no null entry, each roster entry whose militancies are readable
      yields exactly one row, in roster order. */
  lemma OneRowPerDeputy(xml: Result<string>, parse: string -> Option<Node>, now: string)
    requires xml.Ok? && parse(xml.value).Some? && !parse(xml.value).value.Null?
    requires var ds := Roster(parse(xml.value).value);
      |ds| > 0 && forall i :: 0 <= i < |ds| ==> !ds[i].Null? && Partido(ds[i]).Some?
    ensures var ds := Roster(parse(xml.value).value);
      var run := RunDiputados(xml, parse, now);
      && run.Processed? && |run.rows| == |ds|
      && forall i :: 0 <= i < |ds| ==> run.rows[i] == DiputadoItem(now, ds[i]).row
  {
    var f := (d: Node) => DiputadoItem(now, d);
    var ds := Roster(parse(xml.value).value);
    forall i | 0 <= i < |ds|
      ensures f(ds[i]).Emits?
    {
      assert !ds[i].Null? && Partido(ds[i]).Some?;
    }
    MapItemsAllEmit(f, ds);
    assert RunDiputados(xml, parse, now) == RunRoster(xml, parse, Roster, f);
  }

  /** The store writes of a run: its rows upserted into `diputados` on `id`,
      100 to a chunk, every row once and in order; nothing at all when the
      run produced no row. */
  function DiputadosWrites(run: RosterRun<DiputadoRow>): (ws: seq<Batch.Write<DiputadoRow>>)
    ensures ws == [] <==> RosterWrites(run) == []
    ensures forall k :: 0 <= k < |ws| ==>
      && ws[k].Upsert? && ws[k].table == "diputados" && ws[k].onConflict == "id"
      && !ws[k].ignoreDuplicates && 0 < |ws[k].rows| <= Batch.DefaultBatchSize
    ensures Batch.Flatten(Batch.RowsOf(ws)) == RosterWrites(run)
  {
    Batch.UpsertWrites("diputados", RosterWrites(run), DiputadosOptions)
  }
}
