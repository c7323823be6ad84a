/** The loop every extractor runs over a parsed list: each item emits a row,
    is skipped, or throws. Where the source catches the error per item the
    mapper reports a skip; a throw here is one that escapes the loop (for
    instance from a `catch` block that itself reads a field of a null item),
    and it abandons the whole list. */
module Mapping {
  import opened Wrappers
  import opened Tree

  datatype Mapped<T> = Emits(row: T) | Skips | Throws

  /** The rows of `items` under `f`, in order; `None` when an item throws. */
  function MapItems<T>(f: Node -> Mapped<T>, items: seq<Node>): (r: Option<seq<T>>)
    ensures r.Some? <==> forall i :: 0 <= i < |items| ==> !f(items[i]).Throws?
    ensures r.Some? ==> |r.value| <= |items|
    ensures r.Some? ==> forall k :: 0 <= k < |r.value| ==>
      exists i :: 0 <= i < |items| && f(items[i]) == Emits(r.value[k])
  {
    if |items| == 0 then Some([])
    else
      var rest := MapItems(f, items[1..]);
      match f(items[0])
      case Throws => None
      case Skips => rest
      case Emits(row) =>
        if rest.None? then None
        else
          assert forall k :: 0 <= k < |rest.value| ==>
            exists i :: 1 <= i < |items| && f(items[i]) == Emits(rest.value[k]) by {
            forall k | 0 <= k < |rest.value|
              ensures exists i :: 1 <= i < |items| && f(items[i]) == Emits(rest.value[k])
            {
              var i :| 0 <= i < |items[1..]| && f(items[1..][i]) == Emits(rest.value[k]);
              assert items[1..][i] == items[i + 1];
            }
          }
          Some([row] + rest.value)
  }

  /** The number of items `f` emits a row for. */
  function Emitted<T>(f: Node -> Mapped<T>, items: seq<Node>): nat
  {
    if |items| == 0 then 0 else (if f(items[0]).Emits? then 1 else 0) + Emitted(f, items[1..])
  }

  /** Items are handled independently: the rows of a concatenation are the
      rows of each part, in turn. */
  lemma {:induction false} MapItemsAppend<T>(f: Node -> Mapped<T>, a: seq<Node>, b: seq<Node>)
    requires MapItems(f, a).Some? && MapItems(f, b).Some?
    ensures MapItems(f, a + b) == Some(MapItems(f, a).value + MapItems(f, b).value)
  {
    if |a| == 0 {
      assert a + b == b;
      assert MapItems(f, a).value == [];
      assert MapItems(f, a).value + MapItems(f, b).value == MapItems(f, b).value;
    } else {
      assert (a + b)[1..] == a[1..] + b;
      assert (a + b)[0] == a[0];
      MapItemsAppend(f, a[1..], b);
      if f(a[0]).Emits? {
        var ra, rb := MapItems(f, a[1..]).value, MapItems(f, b).value;
        assert [f(a[0]).row] + (ra + rb) == ([f(a[0]).row] + ra) + rb;
      }
    }
  }

  /** The reference for what a completed loop keeps: the rows of the
      emitting items, in input order (built from the end of the list, unlike
      `MapItems`). */
  function Survivors<T>(f: Node -> Mapped<T>, items: seq<Node>): (rows: seq<T>)
    ensures |rows| <= |items|
  {
    if |items| == 0 then []
    else
      var last := items[|items| - 1];
      Survivors(f, items[..|items| - 1]) + (if f(last).Emits? then [f(last).row] else [])
  }

  /** When no item emits, nothing survives. */
  lemma {:induction false} NothingEmitted<T>(f: Node -> Mapped<T>, items: seq<Node>)
    requires forall i :: 0 <= i < |items| ==> !f(items[i]).Emits?
    ensures Survivors(f, items) == []
  {
    if |items| > 0 {
      NothingEmitted(f, items[..|items| - 1]);
    }
  }

  /** A completed loop keeps exactly the emitting items' rows, in input order. */
  lemma {:induction false} MapItemsSurvivors<T>(f: Node -> Mapped<T>, items: seq<Node>)
    requires MapItems(f, items).Some?
    ensures MapItems(f, items).value == Survivors(f, items)
  {
    if |items| > 0 {
      var n := |items| - 1;
      var init, last := items[..n], [items[n]];
      assert items == init + last;
      assert forall i :: 0 <= i < n ==> init[i] == items[i];
      MapItemsSurvivors(f, init);
      assert MapItems(f, last) == Some(if f(items[n]).Emits? then [f(items[n]).row] else []) by {
        assert !f(items[n]).Throws?;
        assert last[1..] == [];
        assert MapItems(f, last[1..]) == Some([]);
        if f(items[n]).Emits? {
          assert [f(items[n]).row] + [] == [f(items[n]).row];
        }
      }
      MapItemsAppend(f, init, last);
    }
  }

  /** Exactly one row per emitting item. */
  lemma {:induction false} MapItemsCount<T>(f: Node -> Mapped<T>, items: seq<Node>)
    requires MapItems(f, items).Some?
    ensures |MapItems(f, items).value| == Emitted(f, items)
  {
    if |items| > 0 {
      MapItemsCount(f, items[1..]);
    }
  }

  /** When every item emits, the rows are the items' rows one for one, in
      input order. */
  lemma {:induction false} MapItemsAllEmit<T>(f: Node -> Mapped<T>, items: seq<Node>)
    requires forall i :: 0 <= i < |items| ==> f(items[i]).Emits?
    ensures MapItems(f, items).Some?
    ensures |MapItems(f, items).value| == |items|
    ensures forall i :: 0 <= i < |items| ==> MapItems(f, items).value[i] == f(items[i]).row
  {
    if |items| > 0 {
      MapItemsAllEmit(f, items[1..]);
      var rest := MapItems(f, items[1..]).value;
      assert MapItems(f, items).value == [f(items[0]).row] + rest;
      forall i | 1 <= i < |items|
        ensures MapItems(f, items).value[i] == f(items[i]).row
      {
        assert items[1..][i - 1] == items[i];
      }
    }
  }

  /** `for (const x of v)`: the elements of an array, the characters of a
      string (each as a one-character string); `None` for anything else,
      which is not iterable and throws. */
  function Iterate(v: Node): (r: Option<seq<Node>>)
    ensures v.Arr? ==> r == Some(v.items)
    ensures v.Str? ==> r.Some? && |r.value| == |v.s|
    ensures v.Str? ==> forall i :: 0 <= i < |v.s| ==> r.value[i] == Str([v.s[i]])
    ensures !v.Arr? && !v.Str? ==> r.None?
  {
    match v
    case Arr(items) => Some(items)
    case Str(s) => Some(seq(|s|, i requires 0 <= i < |s| => Str([s[i]])))
    case _ => None
  }

  /** How a roster extractor (one document listing every member) ends: the
      document could not be fetched; parsing or the loop threw; the document
      listed nobody; or the list was processed into `rows`, which are
      upserted when there are any. */
  datatype RosterRun<T> = Unavailable | Threw | EmptyRoster | Processed(rows: seq<T>)

  /** The rows a roster run writes. */
  function RosterWrites<T>(run: RosterRun<T>): seq<T>
  {
    if run.Processed? then run.rows else []
  }

  /** The common body of the roster extractors: fetch (with retries) the one
      document, parse it, pick out the list, stop when it is empty, map it. */
  function RunRoster<T>(xml: Result<string>, parse: string -> Option<Node>,
                        list: Node -> seq<Node>, f: Node -> Mapped<T>): (run: RosterRun<T>)
    ensures xml.Err? <==> run.Unavailable?
    ensures run.EmptyRoster? <==> xml.Ok? && parse(xml.value).Some? && !parse(xml.value).value.Null?
                                  && list(parse(xml.value).value) == []
    ensures run.Threw? <==> xml.Ok? && (parse(xml.value).None? || parse(xml.value).value.Null?
                                        || MapItems(f, list(parse(xml.value).value)).None?)
    ensures run.Processed? ==> xml.Ok? && parse(xml.value).Some?
                               && Some(run.rows) == MapItems(f, list(parse(xml.value).value))
  {
    match xml
    case Err(_) => Unavailable
    case Ok(text) =>
      match parse(text)
      case None => Threw
      case Some(data) =>
        if data.Null? then Threw
        else
          var raw := list(data);
          if |raw| == 0 then EmptyRoster
          else
            match MapItems(f, raw)
            case None => Threw
            case Some(rows) => Processed(rows)
  }

  /** An empty roster writes nothing. */
  lemma EmptyRosterWritesNothing<T>(xml: Result<string>, parse: string -> Option<Node>,
                                    list: Node -> seq<Node>, f: Node -> Mapped<T>)
    requires xml.Ok? && parse(xml.value).Some? && !parse(xml.value).value.Null?
    requires list(parse(xml.value).value) == []
    ensures RosterWrites(RunRoster(xml, parse, list, f)) == []
  {
  }
}
