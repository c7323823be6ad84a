/** Purchase orders (packages/etl/src/etls/mercadopublico/ordenes.ts): the
    previous day's orders from the procurement API, one row per order, and
    the distinct suppliers they name. The API's JSON is a `Node` tree; the
    clock and the ISO date conversion are parameters. */
module Ordenes {
  import opened Wrappers
  import opened Tree
  import opened Mapping
  import Dates
  import Batch

  const Tipo: string := "Orden de Compra"
  const DefaultSector: string := "Sin Clasificar"
  const OrdenesBase: string := "https://api.mercadopublico.cl/servicios/v1/publico/ordenesdecompra.json?fecha="

  /** Orders replace the row with the same `codigo`; suppliers the row with
      the same `rut`, 500 to a chunk. */
  const OrdenesOptions: Batch.UpsertOptions := Batch.UpsertOptions("codigo", None, None)
  const ProveedoresOptions: Batch.UpsertOptions := Batch.UpsertOptions("rut", None, Some(500))

  function OrdenesUrl(date: string, ticket: string): string
  {
    OrdenesBase + date + "&ticket=" + ticket
  }

  // ─── Orders ──────────────────────────────────────────────────────────────

  /** A row of `datos_mercadopublico`. `codigo` is absent when the order has
      none. */
  datatype OrdenRow = OrdenRow(
    codigo: Option<Node>,
    fecha: string,
    organismo: Node,
    monto: Node,
    moneda: Node,
    estado: Node,
    tipo: string,
    descripcion: Node,
    sector: Node,
    proveedorRut: Node,
    proveedorNombre: Node)

  /** The row of one (non-null) order. */
  function OrdenRowOf(iso: Node -> Option<string>, now: string, item: Node): (row: OrdenRow)
    ensures row.tipo == Tipo
    ensures row.codigo == Get(Some(item), "Codigo")
    ensures row.fecha == Dates.ParseDateISO(iso, Get(Some(item), "FechaCreacion")).GetOr(now)
    ensures Nullish(Get(Get(Some(item), "Comprador"), "Sector")) ==> row.sector == Str(DefaultSector)
    ensures !Nullish(Get(Get(Some(item), "Comprador"), "Sector")) ==> Some(row.sector) == Get(Get(Some(item), "Comprador"), "Sector")
    ensures row.proveedorRut == OrNull(Get(Get(Some(item), "Proveedor"), "RutSucursal"))
    ensures row.proveedorNombre == OrNull(Get(Get(Some(item), "Proveedor"), "Nombre"))
    ensures row.organismo == OrNull(Get(Get(Some(item), "Comprador"), "NombreOrganismo"))
    ensures row.monto == OrNull(Get(Some(item), "MontoTotal"))
    ensures row.moneda == OrNull(Get(Some(item), "TipoMoneda"))
    ensures row.estado == OrNull(Get(Some(item), "Estado"))
    ensures row.descripcion == OrNull(Get(Some(item), "Nombre"))
  {
    OrdenRow(
      codigo := Get(Some(item), "Codigo"),
      fecha := Dates.ParseDateISO(iso, Get(Some(item), "FechaCreacion")).GetOr(now),
      organismo := OrNull(Get(Get(Some(item), "Comprador"), "NombreOrganismo")),
      monto := OrNull(Get(Some(item), "MontoTotal")),
      moneda := OrNull(Get(Some(item), "TipoMoneda")),
      estado := OrNull(Get(Some(item), "Estado")),
      tipo := Tipo,
      descripcion := OrNull(Get(Some(item), "Nombre")),
      sector := Coalesce(Get(Get(Some(item), "Comprador"), "Sector"), Str(DefaultSector)),
      proveedorRut := OrNull(Get(Get(Some(item), "Proveedor"), "RutSucursal")),
      proveedorNombre := OrNull(Get(Get(Some(item), "Proveedor"), "Nombre")))
  }

  /** One listed order: a null order throws out of the loop (its error
      handler reads `item.Codigo`); every other order is a row. */
  function OrdenItem(iso: Node -> Option<string>, now: string, item: Node): (m: Mapped<OrdenRow>)
    ensures item.Null? <==> m.Throws?
    ensures !m.Skips?
    ensures m.Emits? ==> m.row == OrdenRowOf(iso, now, item)
  {
    if item.Null? then Throws else Emits(OrdenRowOf(iso, now, item))
  }

  /** `processOrdenes(data)`: no `Listado` gives no rows; otherwise one row
      per listed order, in order. `None` when the loop throws: a null order,
      or a `Listado` that cannot be iterated. */
  function ProcessOrdenes(iso: Node -> Option<string>, now: string, data: Node): (r: Option<seq<OrdenRow>>)
    ensures !Truthy(Get(Some(data), "Listado")) ==> r == Some([])
    ensures Truthy(Get(Some(data), "Listado")) ==>
      match Iterate(Get(Some(data), "Listado").value)
      case None => r.None?
      case Some(items) =>
        && (r.Some? <==> forall i :: 0 <= i < |items| ==> !items[i].Null?)
        && (r.Some? ==> |r.value| == |items|
                        && forall i :: 0 <= i < |items| ==> r.value[i] == OrdenRowOf(iso, now, items[i]))
  {
    var listado := Get(Some(data), "Listado");
    if !Truthy(listado) then Some([])
    else
      match Iterate(listado.value)
      case None => None
      case Some(items) =>
        var f := (item: Node) => OrdenItem(iso, now, item);
        var r := MapItems(f, items);
        if r.Some? then
          MapItemsAllEmit(f, items);
          r
        else r
  }

  // ─── Suppliers ───────────────────────────────────────────────────────────

  /** A row of `proveedores`. */
  datatype Proveedor = Proveedor(rut: Node, nombre: Node)

  /** Two RUTs are the same `Map` key: equal primitive values. Objects are
      keys by identity, and no two parsed orders share an object, so an
      object RUT never matches an earlier one. */
  predicate SameKey(a: Node, b: Node)
  {
    a == b && !IsObject(a)
  }

  /** Some order among the first `n` has a RUT that is the same key as `rut`. */
  predicate Seen(rows: seq<OrdenRow>, n: nat, rut: Node)
    requires n <= |rows|
  {
    exists j :: 0 <= j < n && SameKey(rows[j].proveedorRut, rut)
  }

  /** `proveedores.has(rut)`. */
  predicate Has(out: seq<Proveedor>, rut: Node)
  {
    exists k :: 0 <= k < |out| && SameKey(out[k].rut, rut)
  }

  /** The reference definition: the orders whose RUT is truthy and not seen
      before, as suppliers, in the order they appear. */
  function Firsts(rows: seq<OrdenRow>): (out: seq<Proveedor>)
    ensures |out| <= |rows|
  {
    if |rows| == 0 then []
    else
      var n := |rows| - 1;
      var r := rows[n];
      Firsts(rows[..n])
      + (if Truthy(Some(r.proveedorRut)) && !Seen(rows, n, r.proveedorRut)
         then [Proveedor(r.proveedorRut, r.proveedorNombre)] else [])
  }

  /** Every supplier of `Firsts` comes from an order with a truthy RUT. */
  lemma {:induction false} FirstsFromOrders(rows: seq<OrdenRow>, k: nat)
    requires k < |Firsts(rows)|
    ensures Truthy(Some(Firsts(rows)[k].rut))
    ensures exists i :: 0 <= i < |rows| && !Seen(rows, i, rows[i].proveedorRut)
                        && Firsts(rows)[k] == Proveedor(rows[i].proveedorRut, rows[i].proveedorNombre)
  {
    var n := |rows| - 1;
    if k < |Firsts(rows[..n])| {
      FirstsFromOrders(rows[..n], k);
      var i :| 0 <= i < n && !Seen(rows[..n], i, rows[..n][i].proveedorRut)
               && Firsts(rows[..n])[k] == Proveedor(rows[..n][i].proveedorRut, rows[..n][i].proveedorNombre);
      assert forall j :: 0 <= j < i ==> rows[..n][j] == rows[j];
      assert !Seen(rows, i, rows[i].proveedorRut);
    } else {
      assert !Seen(rows, n, rows[n].proveedorRut);
    }
  }

  /** A truthy RUT is among the suppliers of `Firsts` exactly when some
      earlier order had it. */
  lemma {:induction false} HasFirsts(rows: seq<OrdenRow>, rut: Node)
    requires Truthy(Some(rut))
    ensures Has(Firsts(rows), rut) <==> Seen(rows, |rows|, rut)
  {
    if |rows| > 0 {
      var n := |rows| - 1;
      var r := rows[n];
      var prefix := rows[..n];
      HasFirsts(prefix, rut);
      assert Seen(prefix, n, rut) <==> Seen(rows, n, rut) by {
        assert forall j :: 0 <= j < n ==> prefix[j] == rows[j];
      }
      var extra := if Truthy(Some(r.proveedorRut)) && !Seen(rows, n, r.proveedorRut)
                   then [Proveedor(r.proveedorRut, r.proveedorNombre)] else [];
      assert Firsts(rows) == Firsts(prefix) + extra;
      assert Has(Firsts(rows), rut) <==> Has(Firsts(prefix), rut) || Has(extra, rut) by {
        var a: seq<Proveedor>, b: seq<Proveedor> := Firsts(prefix), extra;
        if Has(a + b, rut) {
          var k :| 0 <= k < |a + b| && SameKey((a + b)[k].rut, rut);
          if k >= |a| {
            assert b[k - |a|] == (a + b)[k];
          }
        }
        if Has(a, rut) {
          var k :| 0 <= k < |a| && SameKey(a[k].rut, rut);
          assert (a + b)[k] == a[k];
        }
        if Has(b, rut) {
          var k :| 0 <= k < |b| && SameKey(b[k].rut, rut);
          assert (a + b)[|a| + k] == b[k];
        }
      }
      if SameKey(r.proveedorRut, rut) && Seen(rows, n, r.proveedorRut) {
        var j :| 0 <= j < n && SameKey(rows[j].proveedorRut, r.proveedorRut);
        assert SameKey(rows[j].proveedorRut, rut);
      }
      if Seen(rows, |rows|, rut) && !Seen(rows, n, rut) {
        var j :| 0 <= j < |rows| && SameKey(rows[j].proveedorRut, rut);
        assert j == n;
        assert extra != [];
        assert SameKey(extra[0].rut, rut);
      }
    }
  }

  /** No two suppliers share a key. */
  lemma {:induction false} FirstsDistinct(rows: seq<OrdenRow>)
    ensures forall k, l :: 0 <= k < l < |Firsts(rows)| ==> !SameKey(Firsts(rows)[k].rut, Firsts(rows)[l].rut)
  {
    if |rows| > 0 {
      var n := |rows| - 1;
      var r := rows[n];
      var prefix := rows[..n];
      FirstsDistinct(prefix);
      var a := Firsts(prefix);
      var out := Firsts(rows);
      if |out| > |a| {
        assert out == a + [Proveedor(r.proveedorRut, r.proveedorNombre)];
        HasFirsts(prefix, r.proveedorRut);
        assert Seen(prefix, n, r.proveedorRut) <==> Seen(rows, n, r.proveedorRut) by {
          assert forall j :: 0 <= j < n ==> prefix[j] == rows[j];
        }
        assert !Has(a, r.proveedorRut);
        forall k | 0 <= k < |a|
          ensures !SameKey(out[k].rut, out[|a|].rut)
        {
          assert out[k] == a[k];
        }
      } else {
        assert out == a;
      }
    }
  }

  /** Every order with a truthy RUT is represented: an object RUT by itself,
      a primitive RUT by the supplier made from its first order. */
  lemma {:induction false} FirstsComplete(rows: seq<OrdenRow>, i: nat)
    requires i < |rows| && Truthy(Some(rows[i].proveedorRut))
    ensures exists k :: 0 <= k < |Firsts(rows)| && Firsts(rows)[k].rut == rows[i].proveedorRut
  {
    var rut := rows[i].proveedorRut;
    if IsObject(rut) {
      FirstsHasObject(rows, i);
    } else {
      assert Seen(rows, |rows|, rut) by {
        assert SameKey(rows[i].proveedorRut, rut);
      }
      HasFirsts(rows, rut);
    }
  }

  lemma {:induction false} FirstsHasObject(rows: seq<OrdenRow>, i: nat)
    requires i < |rows| && IsObject(rows[i].proveedorRut)
    ensures exists k :: 0 <= k < |Firsts(rows)| && Firsts(rows)[k].rut == rows[i].proveedorRut
  {
    var n := |rows| - 1;
    var prefix := rows[..n];
    assert Firsts(rows)[..|Firsts(prefix)|] == Firsts(prefix);
    if i < n {
      FirstsHasObject(prefix, i);
      var k :| 0 <= k < |Firsts(prefix)| && Firsts(prefix)[k].rut == prefix[i].proveedorRut;
      assert Firsts(rows)[k] == Firsts(prefix)[k];
    } else {
      assert !Seen(rows, n, rows[n].proveedorRut);
      assert Firsts(rows)[|Firsts(prefix)|].rut == rows[n].proveedorRut;
    }
  }

  /** For a repeated RUT the first order's name is the one kept. */
  lemma {:induction false} FirstNameWins(rows: seq<OrdenRow>, i: nat)
    requires i < |rows| && Truthy(Some(rows[i].proveedorRut)) && !Seen(rows, i, rows[i].proveedorRut)
    ensures Proveedor(rows[i].proveedorRut, rows[i].proveedorNombre) in Firsts(rows)
  {
    var n := |rows| - 1;
    var prefix := rows[..n];
    if i < n {
      assert forall j :: 0 <= j <= i ==> prefix[j] == rows[j];
      assert !Seen(prefix, i, prefix[i].proveedorRut);
      FirstNameWins(prefix, i);
    }
  }

  /** `extractProveedores(items)`: the `Map` from RUT to the first supplier
      seen, read back in insertion order. */
  method ExtractProveedores(rows: seq<OrdenRow>) returns (suppliers: seq<Proveedor>)
    ensures suppliers == Firsts(rows)
    ensures |suppliers| <= |rows|
    ensures forall k, l :: 0 <= k < l < |suppliers| ==> !SameKey(suppliers[k].rut, suppliers[l].rut)
    ensures forall k :: 0 <= k < |suppliers| ==> Truthy(Some(suppliers[k].rut))
    ensures forall rut :: Truthy(Some(rut)) ==> (Has(suppliers, rut) <==> Seen(rows, |rows|, rut))
  {
    var kept: seq<Proveedor> := [];
    var i := 0;
    while i < |rows|
      invariant 0 <= i <= |rows|
      invariant kept == Firsts(rows[..i])
    {
      var rut := rows[i].proveedorRut;
      var nombre := rows[i].proveedorNombre;
      if Truthy(Some(rut)) {
        HasFirsts(rows[..i], rut);
        assert Seen(rows[..i], i, rut) <==> Seen(rows[..i + 1], i, rut) by {
          assert forall j :: 0 <= j < i ==> rows[..i][j] == rows[..i + 1][j];
        }
      }
      if Truthy(Some(rut)) && !Has(kept, rut) {
        kept := kept + [Proveedor(rut, nombre)];
      }
      assert rows[..i + 1][..i] == rows[..i];
      i := i + 1;
    }
    assert rows[..|rows|] == rows;
    FirstsDistinct(rows);
    forall k | 0 <= k < |kept|
      ensures Truthy(Some(kept[k].rut))
    {
      FirstsFromOrders(rows, k);
    }
    forall rut | Truthy(Some(rut))
      ensures Has(kept, rut) <==> Seen(rows, |rows|, rut)
    {
      HasFirsts(rows, rut);
    }
    suppliers := kept;
  }

  // ─── The run ─────────────────────────────────────────────────────────────

  /** How the run ends: no data (the fetch or `JSON.parse` failed); the order
      loop threw; no order to write; or the orders and their suppliers were
      upserted (the suppliers only when there are any). */
  datatype OrdenesRun = NoData | LoopThrew | NothingToWrite | Wrote(ordenes: seq<OrdenRow>, proveedores: seq<Proveedor>)

  /** `runOrdenes()` for the day `date` (yesterday, as `DDMMYYYY`): `fetch`
      is the retried fetch of a URL, `parseJson` is `JSON.parse` (`None`
      when it throws). */
  method RunOrdenes(date: string, ticket: string, fetch: string -> Result<string>,
                    parseJson: string -> Option<Node>, iso: Node -> Option<string>, now: string)
    returns (run: OrdenesRun)
    ensures var text := fetch(OrdenesUrl(date, ticket));
      run.NoData? <==> text.Err? || parseJson(text.value).None?
    ensures run.Wrote? ==> run.ordenes != [] && run.proveedores == Firsts(run.ordenes)
    ensures var text := fetch(OrdenesUrl(date, ticket));
      run.Wrote? ==> Some(run.ordenes) == ProcessOrdenes(iso, now, parseJson(text.value).value)
    ensures var text := fetch(OrdenesUrl(date, ticket));
      run.NothingToWrite? <==> text.Ok? && parseJson(text.value).Some?
                               && ProcessOrdenes(iso, now, parseJson(text.value).value) == Some([])
    ensures var text := fetch(OrdenesUrl(date, ticket));
      run.LoopThrew? <==> text.Ok? && parseJson(text.value).Some?
                          && ProcessOrdenes(iso, now, parseJson(text.value).value).None?
    ensures var text := fetch(OrdenesUrl(date, ticket));
      text.Ok? && parseJson(text.value).Some? && ProcessOrdenes(iso, now, parseJson(text.value).value).Some?
      && ProcessOrdenes(iso, now, parseJson(text.value).value).value != [] ==>
      var rows := ProcessOrdenes(iso, now, parseJson(text.value).value).value;
      run == Wrote(rows, Firsts(rows))
  {
    var text := fetch(OrdenesUrl(date, ticket));
    if text.Err? || parseJson(text.value).None? {
      return NoData;
    }
    var data := parseJson(text.value).value;
    var clean := ProcessOrdenes(iso, now, data);
    if clean.None? {
      return LoopThrew;
    }
    if |clean.value| == 0 {
      return NothingToWrite;
    }
    var proveedores := ExtractProveedores(clean.value);
    run := Wrote(clean.value, proveedores);
  }

  /** The store writes of a run: the orders upserted into
      `datos_mercadopublico` on `codigo`, 100 to a chunk; then, when there
      are any, the suppliers upserted into `proveedores` on `rut`, 500 to a
      chunk. Every row is written once and in order. */
  function OrdenesWrites(run: OrdenesRun): (ws: (seq<Batch.Write<OrdenRow>>, seq<Batch.Write<Proveedor>>))
    ensures !run.Wrote? ==> ws.0 == [] && ws.1 == []
    ensures forall k :: 0 <= k < |ws.0| ==>
      && ws.0[k].Upsert? && ws.0[k].table == "datos_mercadopublico" && ws.0[k].onConflict == "codigo"
      && !ws.0[k].ignoreDuplicates && |ws.0[k].rows| <= Batch.DefaultBatchSize
    ensures forall k :: 0 <= k < |ws.1| ==>
      && ws.1[k].Upsert? && ws.1[k].table == "proveedores" && ws.1[k].onConflict == "rut"
      && !ws.1[k].ignoreDuplicates && |ws.1[k].rows| <= 500
    ensures run.Wrote? ==> Batch.Flatten(Batch.RowsOf(ws.0)) == run.ordenes
    ensures run.Wrote? ==> Batch.Flatten(Batch.RowsOf(ws.1)) == run.proveedores
    ensures run.Wrote? && run.proveedores == [] ==> ws.1 == []
  {
    if !run.Wrote? then ([], [])
    else
      var orders := Batch.UpsertWrites("datos_mercadopublico", run.ordenes, OrdenesOptions);
      if |run.proveedores| == 0 then
        assert Batch.Flatten(Batch.RowsOf<Proveedor>([])) == [];
        (orders, [])
      else (orders, Batch.UpsertWrites("proveedores", run.proveedores, ProveedoresOptions))
  }
}
