/** Senate vote details (packages/etl/src/etls/legislativo/senado-details.ts):
    the senator index by surname, the reading of the Senate's "Surname, Name"
    format, the surname lookup with its tie-break, and the header and ballot
    rows written for each vote. The fetch, the parser, MD5, the store's replies
    and the date conversion are parameters. */
module SenadoDetails {
  import opened Wrappers
  import opened Strings
  import opened Tree
  import opened Mapping
  import Hash
  import Dates
  import Batch

  // ─── The senator index ───────────────────────────────────────────────────

  /** A row of the `senadores` table as the query selects it; the name
      columns may be null. */
  datatype Senador = Senador(id: int, nombre: Option<string>, apellidoPaterno: Option<string>,
                             apellidoMaterno: Option<string>)

  /** The index key of a senator: the lower-cased paternal surname. */
  function SurnameKey(s: Senador): string
    requires s.apellidoPaterno.Some?
  {
    ToLower(s.apellidoPaterno.value)
  }

  /** The senator has a paternal surname and `k` is its key. */
  predicate FiledUnder(s: Senador, k: string)
  {
    s.apellidoPaterno.Some? && SurnameKey(s) == k
  }

  /** The senators under key `k`, in the order the query returned them. */
  function WithKey(data: seq<Senador>, k: string): (r: seq<Senador>)
    ensures |r| <= |data|
    ensures forall i :: 0 <= i < |r| ==> r[i] in data && FiledUnder(r[i], k)
  {
    if |data| == 0 then []
    else
      var rest := WithKey(data[..|data| - 1], k);
      var last := data[|data| - 1];
      assert forall s :: s in data[..|data| - 1] ==> s in data;
      if FiledUnder(last, k) then rest + [last] else rest
  }

  /** The grouping loop of `loadSenadoresMap`: a push onto the key's list,
      creating it on first use. */
  function Group(data: seq<Senador>): (m: map<string, seq<Senador>>)
    ensures forall k :: k in m <==> WithKey(data, k) != []
    ensures forall k :: k in m ==> m[k] == WithKey(data, k)
  {
    if |data| == 0 then map[]
    else
      var m := Group(data[..|data| - 1]);
      var last := data[|data| - 1];
      if last.apellidoPaterno.None? then m
      else
        var k := SurnameKey(last);
        m[k := (if k in m then m[k] else []) + [last]]
  }

  /** Every senator with a surname is filed under its own key, and under no
      other. */
  lemma GroupFilesEverySenator(data: seq<Senador>, i: nat)
    requires i < |data| && data[i].apellidoPaterno.Some?
    ensures SurnameKey(data[i]) in Group(data)
    ensures data[i] in Group(data)[SurnameKey(data[i])]
    ensures forall k :: k in Group(data) && data[i] in Group(data)[k] ==> k == SurnameKey(data[i])
  {
    WithKeyComplete(data, i);
  }

  lemma {:induction false} WithKeyComplete(data: seq<Senador>, i: nat)
    requires i < |data| && data[i].apellidoPaterno.Some?
    ensures data[i] in WithKey(data, SurnameKey(data[i]))
  {
    if i < |data| - 1 {
      WithKeyComplete(data[..|data| - 1], i);
    }
  }

  /** Some senator has no paternal surname. */
  predicate MissingSurname(data: seq<Senador>)
  {
    exists i :: 0 <= i < |data| && data[i].apellidoPaterno.None?
  }

  /** `loadSenadoresMap`: the store's answer is `reply`. On an error the
      index is empty. A senator without a paternal surname makes the
      lower-casing throw outside any handler, which ends the whole run
      (`None`). */
  function LoadSenadoresMap(reply: Result<seq<Senador>>): (m: Option<map<string, seq<Senador>>>)
    ensures reply.Err? ==> m == Some(map[])
    ensures reply.Ok? ==> (m.None? <==> MissingSurname(reply.value))
    ensures reply.Ok? && m.Some? ==> m.value == Group(reply.value)
    ensures m.Some? ==> forall k :: k in m.value ==>
      m.value[k] != [] && forall j :: 0 <= j < |m.value[k]| ==> FiledUnder(m.value[k][j], k)
  {
    match reply
    case Err(_) => Some(map[])
    case Ok(data) => if MissingSurname(data) then None else Some(Group(data))
  }

  // ─── Names ───────────────────────────────────────────────────────────────

  datatype Name = Name(nombre: string, apellido: string)

  /** `cleanParlamentarioName(raw)`: with exactly one comma, the trimmed text
      before it is the surname and the trimmed text after it the given name;
      otherwise the whole text is the name and the surname is empty. */
  function CleanParlamentarioName(raw: string): (r: Name)
    ensures |Split(raw, ',')| == 2 ==> r == Name(Trim(Split(raw, ',')[1]), Trim(Split(raw, ',')[0]))
    ensures |Split(raw, ',')| != 2 ==> r == Name(raw, "")
  {
    var parts := Split(raw, ',');
    if |parts| == 2 then Name(Trim(parts[1]), Trim(parts[0])) else Name(raw, "")
  }

  /** Written as "surname, name" with no other comma, a name comes back as
      its two trimmed parts. */
  lemma CleanNameOf(surname: string, name: string)
    requires ',' !in surname && ',' !in name
    ensures CleanParlamentarioName(surname + "," + name) == Name(Trim(name), Trim(surname))
  {
    JoinSplit([surname, name], ',');
    assert [surname, name][1..] == [name];
    assert Join([name], ",") == name;
    assert Join([surname, name], [',']) == surname + "," + name;
    SplitCount(surname + "," + name, ',');
  }

  // ─── Surname lookup ──────────────────────────────────────────────────────

  /** `apellidoRaw.split(' ')[0].toLowerCase()`: "Tuma Z." gives "tuma". */
  function LookupKey(apellidoRaw: string): (k: string)
    ensures k == ToLower(BeforeFirst(apellidoRaw, ' '))
  {
    SplitHead(apellidoRaw, ' ');
    ToLower(Split(apellidoRaw, ' ')[0])
  }

  /** The tie-break test on a candidate's name: one lower-cased name
      contains the other. */
  predicate NamesMatch(candidate: string, nombreLower: string)
  {
    Contains(ToLower(candidate), nombreLower) || Contains(nombreLower, ToLower(candidate))
  }

  /** The first `n` candidates all have names, and none of them matches. */
  predicate PassedOver(cs: seq<Senador>, nombreLower: string, n: nat)
    requires n <= |cs|
  {
    forall j :: 0 <= j < n ==> cs[j].nombre.Some? && !NamesMatch(cs[j].nombre.value, nombreLower)
  }

  /** How the tie-break scan ends: at the first matching candidate, past the
      last one, or throwing at a candidate without a name (its
      `nombre.toLowerCase()`). */
  datatype Scan = Hit(index: nat) | Miss | Nameless

  /** The tie-break scan over the candidates, in order. */
  function FirstMatch(cs: seq<Senador>, nombreLower: string): (r: Scan)
    ensures r.Hit? ==> && r.index < |cs| && PassedOver(cs, nombreLower, r.index)
                       && cs[r.index].nombre.Some? && NamesMatch(cs[r.index].nombre.value, nombreLower)
    ensures r.Miss? <==> PassedOver(cs, nombreLower, |cs|)
    ensures r.Nameless? <==> exists j :: 0 <= j < |cs| && PassedOver(cs, nombreLower, j) && cs[j].nombre.None?
  {
    if |cs| == 0 then Miss
    else if cs[0].nombre.None? then
      assert PassedOver(cs, nombreLower, 0);
      Nameless
    else if NamesMatch(cs[0].nombre.value, nombreLower) then
      assert !PassedOver(cs, nombreLower, |cs|);
      assert forall j :: 0 < j <= |cs| ==> !PassedOver(cs, nombreLower, j);
      Hit(0)
    else
      var tail := cs[1..];
      assert forall j :: 0 <= j < |tail| ==> PassedOver(cs, nombreLower, j + 1) == PassedOver(tail, nombreLower, j) by {
        forall j | 0 <= j < |tail|
          ensures PassedOver(cs, nombreLower, j + 1) == PassedOver(tail, nombreLower, j)
        {
          assert forall l :: 0 <= l < j ==> tail[l] == cs[l + 1];
        }
      }
      assert PassedOver(cs, nombreLower, |cs|) == PassedOver(tail, nombreLower, |tail|) by {
        assert forall l :: 0 <= l < |tail| ==> tail[l] == cs[l + 1];
      }
      match FirstMatch(tail, nombreLower)
      case Hit(j) => Hit(j + 1)
      case Miss => Miss
      case Nameless =>
        var j :| 0 <= j < |tail| && PassedOver(tail, nombreLower, j) && tail[j].nombre.None?;
        assert PassedOver(cs, nombreLower, j + 1) && cs[j + 1].nombre.None?;
        Nameless
  }

  /** What the lookup gives: no senator under the surname, a senator's id,
      or an exception from the tie-break. */
  datatype Lookup = Unknown | Id(id: int) | LookupThrew

  /** `findSenadorId(nombre, apellidoRaw, map)`: nothing when no senator has
      that surname; the only one when there is one; otherwise the first whose
      name contains or is contained in the given name, else the first. An id
      is always that of a senator filed under the looked-up surname. */
  function FindSenadorId(nombre: string, apellidoRaw: string, m: map<string, seq<Senador>>): (r: Lookup)
    ensures var k := LookupKey(apellidoRaw);
      r.Unknown? <==> k !in m || m[k] == []
    ensures var k := LookupKey(apellidoRaw);
      r.Id? ==> exists i :: 0 <= i < |m[k]| && m[k][i].id == r.id
    ensures var k := LookupKey(apellidoRaw);
      k in m && |m[k]| == 1 ==> r == Id(m[k][0].id)
    ensures var k := LookupKey(apellidoRaw);
      k in m && |m[k]| > 1 ==>
        match FirstMatch(m[k], ToLower(nombre))
        case Hit(i) => r == Id(m[k][i].id)
        case Miss => r == Id(m[k][0].id)
        case Nameless => r == LookupThrew
  {
    var k := LookupKey(apellidoRaw);
    if k !in m || |m[k]| == 0 then Unknown
    else
      var candidates := m[k];
      if |candidates| == 1 then Id(candidates[0].id)
      else
        match FirstMatch(candidates, ToLower(nombre))
        case Hit(i) => Id(candidates[i].id)
        case Miss => Id(candidates[0].id)
        case Nameless => LookupThrew
  }

  /** The index of the example: two senators filed under "tuma". */
  function TumaIndex(): map<string, seq<Senador>>
  {
    map["tuma" := [Senador(1, Some("Juan"), Some("Tuma"), None), Senador(2, Some("Eugenio"), Some("Tuma"), None)]]
  }

  lemma LookupKeyTuma()
    ensures LookupKey("Tuma Z.") == "tuma"
  {
    assert BeforeFirst("Tuma Z.", ' ') == "Tuma";
    LowerOf("Tuma", "tuma");
  }

  /** Lower-casing text whose characters lower-case one by one to `t`. */
  lemma LowerOf(s: string, t: string)
    requires |s| == |t| && forall i :: 0 <= i < |s| ==> LowerChar(s[i]) == t[i]
    ensures ToLower(s) == t
  {
  }

  lemma LowerEugenio()
    ensures ToLower("Eugenio") == "eugenio"
  {
    assert LowerChar('E') == 'e';
    LowerOf("Eugenio", "eugenio");
  }

  /** A text lacking one of the letters of `t` does not contain `t`. */
  lemma MissingLetter(s: string, t: string, k: nat)
    requires k < |t| && t[k] !in s
    ensures !Contains(s, t)
  {
    forall i ensures !OccursAt(s, t, i) {
      if 0 <= i && i + |t| <= |s| {
        assert s[i..i + |t|][k] == s[i + k];
      }
    }
  }

  lemma EugenioIsNotJuan()
    ensures !NamesMatch("Juan", "eugenio")
  {
    assert LowerChar('J') == 'j';
    LowerOf("Juan", "juan");
    assert !Contains("juan", "eugenio");
    assert "juan"[0] == 'j';
    MissingLetter("eugenio", "juan", 0);
  }

  lemma EugenioIsEugenio()
    ensures NamesMatch("Eugenio", "eugenio")
  {
    LowerEugenio();
    assert OccursAt("eugenio", "eugenio", 0);
  }

  /** "Tuma Z., Eugenio" against two senators named Tuma: the given name picks
      the second one although the first comes first. */
  lemma TieBreakByGivenName()
    ensures FindSenadorId("Eugenio", "Tuma Z.", TumaIndex()) == Id(2)
  {
    LookupKeyTuma();
    LowerEugenio();
    EugenioIsNotJuan();
    EugenioIsEugenio();
    var cs := TumaIndex()["tuma"];
    assert FirstMatch(cs[1..], "eugenio") == Hit(0);
    assert FirstMatch(cs, "eugenio") == Hit(1);
  }

  /** The same lookup when the first Tuma has no given name in the store:
      the scan reaches it first and throws. */
  lemma NamelessCandidateThrows()
    ensures FindSenadorId("Eugenio", "Tuma Z.",
              map["tuma" := [Senador(1, None, Some("Tuma"), None), Senador(2, Some("Eugenio"), Some("Tuma"), None)]])
            == LookupThrew
  {
    LookupKeyTuma();
  }

  /** A surname nobody has resolves to nothing. */
  lemma UnknownSurname()
    ensures FindSenadorId("Eugenio", "Soto", TumaIndex()) == Unknown
  {
    assert BeforeFirst("Soto", ' ') == "Soto";
    LowerOf("Soto", "soto");
    assert LookupKey("Soto") == "soto";
    assert "soto" != "tuma";
  }

  // ─── Bills and votes ─────────────────────────────────────────────────────

  /** `b.includes('-') ? b.split('-')[0] : b`: the bill number without its
      check digit, as the Senate service wants it. */
  function QueryBoletin(boletinRaw: string): (q: string)
    ensures q == BeforeFirst(boletinRaw, '-')
  {
    ContainsChar(boletinRaw, '-');
    SplitHead(boletinRaw, '-');
    if Contains(boletinRaw, "-") then Split(boletinRaw, '-')[0] else boletinRaw
  }

  function VotacionesUrl(boletinRaw: string): string
  {
    "https://tramitacion.senado.cl/wspublico/votaciones.php?boletin=" + QueryBoletin(boletinRaw)
  }

  /** A row of `votaciones_sala`. */
  datatype VotacionRow = VotacionRow(
    id: nat,
    boletin: string,
    fecha: Option<string>,
    materia: string,
    resultado: string,
    quorum: Node,
    tipoVotacion: Node,
    updatedAt: string)

  /** A row of `fact_votaciones_detalle`. */
  datatype VotoRow = VotoRow(
    votacionId: nat,
    parlamentarioId: int,
    camara: string,
    nombreParlamentario: string,
    opcionVoto: Node)

  /** Characters of the subject kept in `materia`. */
  const MateriaLimit: nat := 500

  /** The environment of one run: MD5, the time-zone-dependent step of
      `parseDateDMYToISO` (see `Dates.ParseDateDMYToISO`), the clock, and
      the store's verdict on each header row. */
  datatype Env = Env(
    md5: string -> Hash.Digest,
    instant: (Option<int>, Option<int>, Option<int>) -> Option<string>,
    now: string,
    acceptsHeader: VotacionRow -> bool)

  /** The tally text `Sí: <SI>, No: <NO>, Abs: <ABSTENCION>`, each "0" when absent. */
  function Resultado(v: Node): string
  {
    "Sí: " + ToText(Coalesce(Get(Some(v), "SI"), Str("0")))
    + ", No: " + ToText(Coalesce(Get(Some(v), "NO"), Str("0")))
    + ", Abs: " + ToText(Coalesce(Get(Some(v), "ABSTENCION"), Str("0")))
  }

  /** The tally copies the three counts as given, and a vote without counts
      reads "Sí: 0, No: 0, Abs: 0". */
  lemma ResultadoTally(si: string, no: string, abs: string)
    ensures Resultado(Obj([Entry("SI", Str(si)), Entry("NO", Str(no)), Entry("ABSTENCION", Str(abs))]))
      == "Sí: " + si + ", No: " + no + ", Abs: " + abs
    ensures Resultado(Obj([])) == "Sí: 0, No: 0, Abs: 0"
  {
    TallyCounts(si, no, abs);
  }

  /** Each count of a three-count vote is found under its own key. */
  lemma TallyCounts(si: string, no: string, abs: string)
    ensures var v := Obj([Entry("SI", Str(si)), Entry("NO", Str(no)), Entry("ABSTENCION", Str(abs))]);
      && Get(Some(v), "SI") == Some(Str(si))
      && Get(Some(v), "NO") == Some(Str(no))
      && Get(Some(v), "ABSTENCION") == Some(Str(abs))
  {
    var v := Obj([Entry("SI", Str(si)), Entry("NO", Str(no)), Entry("ABSTENCION", Str(abs))]);
    assert "NO"[0] != "SI"[0] && "ABSTENCION"[0] != "SI"[0] && "ABSTENCION"[0] != "NO"[0];
    assert v.entries[1..] == [Entry("NO", Str(no)), Entry("ABSTENCION", Str(abs))];
    assert v.entries[2..] == [Entry("ABSTENCION", Str(abs))];
    assert Tree.Lookup(v.entries[1..], "NO") == Some(Str(no));
    assert Tree.Lookup(v.entries[2..], "ABSTENCION") == Some(Str(abs));
    assert Tree.Lookup(v.entries[1..], "ABSTENCION") == Some(Str(abs));
  }

  /** The date text of vote `v`: `v.FECHA ?? ''`. */
  function FechaOf(v: Node): Node
  {
    Coalesce(Get(Some(v), "FECHA"), Str(""))
  }

  /** The subject of vote `v`: `v.TEMA ?? ''`. */
  function TemaOf(v: Node): Node
  {
    Coalesce(Get(Some(v), "TEMA"), Str(""))
  }

  /** The header of vote `v` of bill `boletinRaw`; `None` when reading the
      vote throws: a null vote, a subject that is not text, or a truthy date
      that is not text. The code then skips the vote. */
  function Header(env: Env, boletinRaw: string, v: Node): (h: Option<VotacionRow>)
    ensures h.None? <==> v.Null? || !TemaOf(v).Str? || (Truthy(Some(FechaOf(v))) && !FechaOf(v).Str?)
    ensures h.Some? ==> Hash.IdBase <= h.value.id <= 999_999_999
    ensures h.Some? ==> h.value.id == Hash.GenerateVotacionId(env.md5, boletinRaw, ToText(FechaOf(v)),
                                                              Take(TemaOf(v).s, Hash.SubjectLimit))
    ensures h.Some? ==> h.value.boletin == boletinRaw
    ensures h.Some? ==> h.value.materia == Take(TemaOf(v).s, MateriaLimit) && |h.value.materia| <= MateriaLimit
    ensures h.Some? ==> h.value.fecha == if Truthy(Some(FechaOf(v))) then Dates.ParseDateDMYToISO(env.instant, Some(FechaOf(v).s)) else None
    ensures h.Some? ==> h.value.resultado == Resultado(v)
    ensures h.Some? ==> h.value.quorum == OrNull(Get(Some(v), "QUORUM"))
    ensures h.Some? ==> h.value.tipoVotacion == OrNull(Get(Some(v), "TIPOVOTACION"))
    ensures h.Some? ==> h.value.updatedAt == env.now
  {
    var fecha := FechaOf(v);
    var tema := TemaOf(v);
    if v.Null? || !tema.Str? || (Truthy(Some(fecha)) && !fecha.Str?) then None
    else
      var fechaIso := if Truthy(Some(fecha)) then Dates.ParseDateDMYToISO(env.instant, Some(fecha.s)) else None;
      var vid := Hash.GenerateVotacionId(env.md5, boletinRaw, ToText(fecha), Take(tema.s, Hash.SubjectLimit));
      Some(VotacionRow(
        id := vid,
        boletin := boletinRaw,
        fecha := fechaIso,
        materia := Take(tema.s, MateriaLimit),
        resultado := Resultado(v),
        quorum := OrNull(Get(Some(v), "QUORUM")),
        tipoVotacion := OrNull(Get(Some(v), "TIPOVOTACION")),
        updatedAt := env.now))
  }

  /** The header id is the id of the raw bill, the raw date text and the whole
      subject: cutting the subject to 50 characters first changes nothing. */
  lemma HeaderIdUsesRawText(env: Env, boletinRaw: string, v: Node)
    requires Header(env, boletinRaw, v).Some?
    ensures TemaOf(v).Str? &&
      Header(env, boletinRaw, v).value.id == Hash.GenerateVotacionId(env.md5, boletinRaw, ToText(FechaOf(v)), TemaOf(v).s)
  {
    Hash.PreTruncationHarmless(env.md5, boletinRaw, ToText(FechaOf(v)), TemaOf(v).s);
  }

  /** One ballot of a vote. A null entry, a truthy name that is not text, or
      a lookup that throws in the tie-break: the ballot throws. No name, an
      unknown surname or a falsy id: skipped. Otherwise a row for the
      senator found, under the raw name. */
  function BallotLine(vid: nat, m: map<string, seq<Senador>>, d: Node): (l: Mapped<VotoRow>)
    ensures d.Null? ==> l.Throws?
    ensures !d.Null? && !Truthy(Get(Some(d), "PARLAMENTARIO")) ==> l.Skips?
    ensures var parl := Get(Some(d), "PARLAMENTARIO");
      !d.Null? && Truthy(parl) && !parl.value.Str? ==> l.Throws?
    ensures var parl := Get(Some(d), "PARLAMENTARIO");
      !d.Null? && Truthy(parl) && parl.value.Str? ==>
        var name := CleanParlamentarioName(parl.value.s);
        var sid := FindSenadorId(name.nombre, name.apellido, m);
        && (l.Throws? <==> sid.LookupThrew?)
        && (l.Emits? <==> sid.Id? && sid.id != 0)
        && (l.Emits? ==> l.row == VotoRow(vid, sid.id, "Senado", parl.value.s, OrNull(Get(Some(d), "SELECCION"))))
    ensures l.Emits? ==> l.row.votacionId == vid && l.row.camara == "Senado" && l.row.parlamentarioId != 0
  {
    if d.Null? then Throws
    else
      var parl := Get(Some(d), "PARLAMENTARIO");
      if !Truthy(parl) then Skips
      else if !parl.value.Str? then Throws
      else
        var name := CleanParlamentarioName(parl.value.s);
        match FindSenadorId(name.nombre, name.apellido, m)
        case LookupThrew => Throws
        case Unknown => Skips
        case Id(sid) =>
          if sid != 0 then Emits(VotoRow(vid, sid, "Senado", parl.value.s, OrNull(Get(Some(d), "SELECCION"))))
          else Skips
  }

  /** The ballots of one vote. `None` when some ballot throws, which
      abandons the vote's detail; otherwise the rows of the kept ballots, in
      ballot order. */
  function Ballots(vid: nat, detalles: seq<Node>, m: map<string, seq<Senador>>): (r: Option<seq<VotoRow>>)
    ensures r.None? <==> exists i :: 0 <= i < |detalles| && BallotLine(vid, m, detalles[i]).Throws?
    ensures r.Some? ==> r.value == Survivors((d: Node) => BallotLine(vid, m, d), detalles)
    ensures r.Some? ==> |r.value| <= |detalles|
    ensures r.Some? ==> forall k :: 0 <= k < |r.value| ==>
      r.value[k].votacionId == vid && r.value[k].camara == "Senado" && r.value[k].parlamentarioId != 0
  {
    var f := (d: Node) => BallotLine(vid, m, d);
    var r := MapItems(f, detalles);
    if r.Some? then
      MapItemsSurvivors(f, detalles);
      r
    else r
  }

  /** A ballot without a name, or whose senator the index does not know,
      writes nothing and changes nothing for the others. */
  lemma UnresolvedBallotDropped(vid: nat, d: Node, rest: seq<Node>, m: map<string, seq<Senador>>)
    requires !d.Null?
    requires var parl := Get(Some(d), "PARLAMENTARIO");
      !Truthy(parl) || (parl.value.Str? &&
        var name := CleanParlamentarioName(parl.value.s);
        FindSenadorId(name.nombre, name.apellido, m).Unknown?)
    ensures Ballots(vid, [d] + rest, m) == Ballots(vid, rest, m)
  {
    assert ([d] + rest)[1..] == rest;
  }

  /** What became of one vote. */
  datatype VoteOutcome =
    | Skipped                                        // reading the vote threw
    | HeaderRejected(header: VotacionRow)            // the store refused the header
    | DetailAbandoned(header: VotacionRow)           // reading a ballot threw
    | Written(header: VotacionRow, ballots: seq<VotoRow>)

  /** The ballot entries of vote `v`: `ensureArray(v.DETALLE_VOTACION?.VOTO)`. */
  function Detalles(v: Node): seq<Node>
  {
    EnsureArray(Get(Get(Some(v), "DETALLE_VOTACION"), "VOTO"))
  }

  /** One iteration of the vote loop: header first; ballots only once the
      store has accepted it. */
  function VisitVote(env: Env, boletinRaw: string, v: Node, m: map<string, seq<Senador>>): (o: VoteOutcome)
    ensures o.Skipped? <==> Header(env, boletinRaw, v).None?
    ensures v.Null? ==> o.Skipped?
    ensures !o.Skipped? ==> Some(o.header) == Header(env, boletinRaw, v)
    ensures o.HeaderRejected? <==> !o.Skipped? && !env.acceptsHeader(o.header)
    ensures o.Written? ==>
      env.acceptsHeader(o.header) && Some(o.ballots) == Ballots(o.header.id, Detalles(v), m)
    ensures o.DetailAbandoned? <==>
      !o.Skipped? && env.acceptsHeader(o.header) && Ballots(o.header.id, Detalles(v), m).None?
    ensures o.Written? ==> forall i :: 0 <= i < |o.ballots| ==> o.ballots[i].votacionId == o.header.id
  {
    match Header(env, boletinRaw, v)
    case None => Skipped
    case Some(h) =>
      if !env.acceptsHeader(h) then HeaderRejected(h)
      else
        match Ballots(h.id, Detalles(v), m)
        case None => DetailAbandoned(h)
        case Some(rows) => Written(h, rows)
  }

  /** The ballot rows written for a vote: those of a written vote, and none
      otherwise. `Batch.DetailInserts` of them is the vote's store insert. */
  function BallotsWritten(o: VoteOutcome): seq<VotoRow>
  {
    if o.Written? then o.ballots else []
  }

  /** No ballot row is ever written for a vote whose header the store refused. */
  lemma NoDetailWithoutHeader(env: Env, boletinRaw: string, v: Node, m: map<string, seq<Senador>>)
    requires Header(env, boletinRaw, v).Some? && !env.acceptsHeader(Header(env, boletinRaw, v).value)
    ensures Batch.DetailInserts(BallotsWritten(VisitVote(env, boletinRaw, v, m))) == []
  {
  }

  /** What became of one bill: the pause after it (0 when the loop moved on
      without pausing) and its votes. */
  datatype BillVisit = BillVisit(boletin: string, url: string, votes: seq<VoteOutcome>, pause: int)

  /** The vote loop of one bill, vote by vote. */
  function VisitVotes(env: Env, boletinRaw: string, vs: seq<Node>, m: map<string, seq<Senador>>): (os: seq<VoteOutcome>)
    ensures |os| == |vs|
    ensures forall i :: 0 <= i < |vs| ==> os[i] == VisitVote(env, boletinRaw, vs[i], m)
  {
    seq(|vs|, i requires 0 <= i < |vs| => VisitVote(env, boletinRaw, vs[i], m))
  }

  /** The votes of a parsed document: none when the `votaciones` element is
      missing or falsy, otherwise `ensureArray` of its `votacion`. */
  function Votaciones(data: Node): seq<Node>
  {
    var wrapper := Member(data, "votaciones");
    if !Truthy(wrapper) then [] else EnsureArray(Member(wrapper.value, "votacion"))
  }

  /** One iteration of the bill loop. No document: pause 200 ms. A parse
      error or null document: caught, pause 300 ms. No vote: the loop
      continues at once, without a pause. Otherwise every vote is visited,
      then pause 300 ms. */
  function VisitBill(env: Env, fetch: string -> Option<string>, parse: string -> Option<Node>,
                     boletinRaw: string, m: map<string, seq<Senador>>): (b: BillVisit)
    ensures b.boletin == boletinRaw && b.url == VotacionesUrl(boletinRaw)
    ensures var xml := fetch(VotacionesUrl(boletinRaw));
      xml.None? || xml.value == "" ==> b.votes == [] && b.pause == 200
    ensures var xml := fetch(VotacionesUrl(boletinRaw));
      xml.Some? && xml.value != "" && (parse(xml.value).None? || parse(xml.value).value.Null?)
      ==> b.votes == [] && b.pause == 300
    ensures var xml := fetch(VotacionesUrl(boletinRaw));
      xml.Some? && xml.value != "" && parse(xml.value).Some? && !parse(xml.value).value.Null? ==>
        var vs := Votaciones(parse(xml.value).value);
        && (vs == [] ==> b.votes == [] && b.pause == 0)
        && (vs != [] ==> b.votes == VisitVotes(env, boletinRaw, vs, m) && b.pause == 300)
    ensures b.votes != [] ==> b.pause == 300
  {
    var url := VotacionesUrl(boletinRaw);
    var xml := fetch(url);
    if xml.None? || xml.value == "" then BillVisit(boletinRaw, url, [], 200)
    else
      match parse(xml.value)
      case None => BillVisit(boletinRaw, url, [], 300)
      case Some(data) =>
        if data.Null? then BillVisit(boletinRaw, url, [], 300)
        else
          var votaciones := Votaciones(data);
          if |votaciones| == 0 then BillVisit(boletinRaw, url, [], 0)
          else BillVisit(boletinRaw, url, VisitVotes(env, boletinRaw, votaciones, m), 300)
  }

  /** `runSenadoDetails()`: `senators` and `bills` are the store's answers to
      the two queries. A senator without a surname ends the run before any
      bill (`None`). A failed bill query ends it with no work; a failed
      senator query leaves an empty index, so no ballot resolves. */
  function RunSenadoDetails(env: Env, fetch: string -> Option<string>, parse: string -> Option<Node>,
                            senators: Result<seq<Senador>>, bills: Result<seq<string>>): (r: Option<seq<BillVisit>>)
    ensures r.None? <==> senators.Ok? && MissingSurname(senators.value)
    ensures r.Some? && bills.Err? ==> r.value == []
    ensures r.Some? && bills.Ok? ==>
      && |r.value| == |bills.value|
      && forall i :: 0 <= i < |r.value| ==>
           r.value[i] == VisitBill(env, fetch, parse, bills.value[i], LoadSenadoresMap(senators).value)
  {
    match LoadSenadoresMap(senators)
    case None => None
    case Some(m) =>
      match bills
      case Err(_) => Some([])
      case Ok(bs) => Some(seq(|bs|, i requires 0 <= i < |bs| => VisitBill(env, fetch, parse, bs[i], m)))
  }

  /** With the senator query failed the index is empty, so every ballot is
      dropped: votes are written with no ballot rows. */
  lemma EmptyIndexResolvesNothing(vid: nat, detalles: seq<Node>)
    ensures Ballots(vid, detalles, map[]).Some? ==> Ballots(vid, detalles, map[]).value == []
  {
    var f := (d: Node) => BallotLine(vid, map[], d);
    forall i | 0 <= i < |detalles|
      ensures !f(detalles[i]).Emits?
    {
    }
    NothingEmitted(f, detalles);
  }
}
