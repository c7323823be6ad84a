# ETL core of the legislative and procurement data pipeline, in Dafny

This project models the extract-transform-load package (`packages/etl`) that
fills the store behind a Chilean legislative and public-procurement site:

- the Chamber of Deputies' bill discovery;
- bills;
- the two legislator rosters;
- the Chamber's and the Senate's roll-call votes;
- the procurement API's purchase orders and tenders.

The model covers the pure parts of that package:

- the parsed-document tree and its helpers `ensureArray` and `getNestedValue`;
- the date reshaping functions;
- the deterministic Senate vote id;
- the chunked upsert/insert loops;
- the bounded retry with linear back-off;
- environment validation;
- the two orchestrator loops;
- every extractor's record mapping, skip and error rules.

The network, the document parsers, the clock and the store become parameters:

- Fetch results are functions from URL to `Option<string>`; `None` stands for a
  failed or non-ok request.
- The XML and JSON parsers are functions from text to `Option<Node>`; `None`
  stands for a parser exception.
- `parseDateISO` / `parseDateDMYToISO` are functions on their input, and the
  current time is a string.
- The store's verdict on a write is a predicate or a list of replies.

A parsed document is a `Node`:

- an object is an ordered list of `(key, value)` entries. The parser
  parameters are taken never to produce a repeated key (`JSON.parse` keeps
  the last of repeated keys, and the XML parser turns repeated elements into
  an array); lookups read the first entry;
- an array is a sequence of nodes;
- a scalar is a string, an integer, a boolean or null.

JavaScript `undefined` is `None`. `Tree.Get` is optional member access (`?.`).
`Tree.Coalesce` is `??` and `Tree.Truthy` is JavaScript truthiness.

Each extractor's per-item loop body is modelled as a `Mapping.Mapped` value:

- `Emits(row)`: the item gives a row.
- `Skips`: a `continue`, or an exception its `catch` absorbs.
- `Throws`: an exception that escapes the loop. This happens, for example,
  when the `catch` block itself reads a field of a null item.

`Mapping.MapItems` is then the whole loop. It gives `None` exactly when some
item throws.

Modules, one per source file, plus shared helpers:

- `Wrappers`, `Strings`, `Tree`: shared helpers.
- `Dates`, `Hash`, `Batch`, `Http`, `Env`, `Orchestrator`.
- `Mapping`: the shared loop shapes.
- The extractors: `Discovery`, `Proyectos`, `Diputados`, `Senado`,
  `HistoricalDetails`, `SenadoDetails`, `Ordenes`, `Licitaciones`.

## Model

| member | source | states |
|---|---|---|
| Tree.EnsureArray | packages/etl/src/lib/xml.ts:36-40 | null or undefined gives `[]`; an array is returned as it is; any other value gives the one-element list holding it |
| Tree.EnsureArrayIdempotent | packages/etl/src/lib/xml.ts:36-40 | wrapping the result of `ensureArray` in an array and normalising again changes nothing |
| Tree.EnsureArraySingleChild | packages/etl/src/lib/xml.ts:36-40 | a single child element and a one-element array of it normalise to the same list, which is what the helper exists for |
| Tree.GetNestedValue | packages/etl/src/lib/xml.ts:46-58 | no keys gives the object itself; with keys, a non-object start gives undefined |
| Tree.Nested | packages/etl/src/lib/xml.ts:50-57 | the key walk returns the current value when keys run out, and undefined as soon as the current value is nullish or not an object |
| Tree.NestedStep | packages/etl/src/lib/xml.ts:52-55 | one key on an object is plain member access |
| Tree.NestedAppend | packages/etl/src/lib/xml.ts:50-57 | walking `a + b` is walking `a` and then `b`, so the walk equals the chained lookups in order |
| Dates.ParseDateDMY | packages/etl/src/lib/dates.ts:14-23 | null or empty input gives null; a result exists only when splitting on '/' gives three parts |
| Dates.ParseDateDMYAccepts | packages/etl/src/lib/dates.ts:15-20 | a date is accepted exactly when it is non-empty, splits into three parts on '/', and none of them is empty |
| Dates.ParseDateDMYOf | packages/etl/src/lib/dates.ts:16-22 | `d/m/y` gives `y-` + `m` left-padded to 2 + `-` + `d` left-padded to 2; padding never truncates |
| Dates.ParseDateDMYCanonical | packages/etl/src/lib/dates.ts:22 | two-digit day and month are copied unchanged into `yyyy-mm-dd` |
| Dates.ParseDateDMYToISO | packages/etl/src/lib/dates.ts:58-70 | whatever the time zone, text that `parseDateDMY` rejects (null, empty, not three parts, an empty part) gives null; accepted text gives the time-zone-dependent instant of `parseInt` of its year, month and day |
| Dates.ParseDateCompact | packages/etl/src/lib/dates.ts:44-52 | defined exactly for 8-character input; the result has length 10 with '-' at positions 4 and 7 |
| Dates.ParseDateCompactInverse | packages/etl/src/lib/dates.ts:47-51 | reading the slices back out of the result recovers the `DDMMYYYY` input |
| Dates.ParseDateCompactInjective | packages/etl/src/lib/dates.ts:47-51 | two inputs with the same result are equal |
| Dates.ParseDateISO | packages/etl/src/lib/dates.ts:29-38 | a falsy input gives null; otherwise the date conversion decides |
| Hash.KeyText | packages/etl/src/lib/hash.ts:30-31 | the hashed text is exactly `boletin`, '-', `fecha`, '-', and the first 50 characters of `tema`, with no normalisation |
| Hash.GenerateVotacionId | packages/etl/src/lib/hash.ts:24-42 | the id lies in [100000000, 999999999] and equals 100000000 plus the digest of the key text modulo 900000000 |
| Hash.IdsDisjointFromNative | packages/etl/src/lib/hash.ts:38-41 | every generated id exceeds any Chamber id below 100000, so the two id spaces never meet |
| Hash.SubjectPrefixDetermines | packages/etl/src/lib/hash.ts:30 | subjects agreeing on their first 50 characters give the same id |
| Hash.PreTruncationHarmless | packages/etl/src/etls/legislativo/senado-details.ts:212-216 | truncating the subject before the call, as the Senate extractor does, gives the same id |
| Hash.IdDependsOnKeyText | packages/etl/src/lib/hash.ts:31-39 | the id depends on the arguments only through the hashed text |
| Hash.TopOfBandReachable | packages/etl/src/lib/hash.ts:38-41 | the top value 999999999 is reached, so the range is inclusive at both ends |
| Batch.NumChunksIsCeiling | packages/etl/src/lib/batch.ts:32 | the loop makes ceil(n / size) iterations |
| Batch.Chunks | packages/etl/src/lib/batch.ts:32-33 | there are ceil(n / size) slices; every slice but the last holds `size` rows; the last is non-empty and at most `size` |
| Batch.ChunksFlatten | packages/etl/src/lib/batch.ts:32-33 | concatenating the slices gives back the data in order |
| Batch.ChunkAt | packages/etl/src/lib/batch.ts:32-33 | slice k is `data[k*size .. min(k*size+size, n)]` |
| Batch.AcceptedRowsBounds | packages/etl/src/lib/batch.ts:43-47 | the count lies between 0 and n; it is n when every chunk is accepted and 0 when none is |
| Batch.PartialFailureCount | packages/etl/src/lib/batch.ts:32-50 | 250 rows in chunks of 100 with the middle chunk rejected count 150: a failed chunk does not stop later ones |
| Batch.WriteChunks | packages/etl/src/lib/batch.ts:32-51 | one write per slice, in order; the total is the size of the slices whose reply was a success |
| Batch.BatchUpsert | packages/etl/src/lib/batch.ts:23-54 | chunk size defaults to 100 and duplicates are not ignored by default; one write per chunk; total ≤ n; no write and 0 for empty data |
| Batch.BatchInsert | packages/etl/src/lib/batch.ts:60-85 | the same chunking and counting with plain inserts and no conflict key |
| Batch.UpsertWrites | packages/etl/src/lib/batch.ts:23-54 | the upserts one `batchUpsert` call sends: ceil(n / size) of them, each to the given table with the caller's conflict key and duplicate flag, each non-empty and at most `size` rows, and together the data in order |
| Batch.InsertWrites | packages/etl/src/lib/batch.ts:60-85 | the inserts one `batchInsert` call sends: ceil(n / size) of them, each to the given table, each non-empty and at most `size` rows, and together the data in order |
| Batch.DetailInserts | packages/etl/src/etls/legislativo/senado-details.ts:269-276 | a vote's ballot rows are inserted into `fact_votaciones_detalle` in chunks of at most 100, each once and in order, and nothing is inserted without rows; historical-details.ts:187-195 makes the same insert |
| Http.MergedHeaders | packages/etl/src/lib/http.ts:36 | the caller's headers win; the default User-Agent is present unless overridden; no other key appears |
| Http.Backoff | packages/etl/src/lib/http.ts:66 | the wait after failed attempt a is `retryDelay * (a + 1)` |
| Http.FetchWithRetry | packages/etl/src/lib/http.ts:25-74 | the run is the one `Retried` describes: at most `maxRetries` attempts; success exactly when some attempt within the limit is ok, returning the first ok body; a non-ok status counts as a failure |
| Http.RetriedUnique | packages/etl/src/lib/http.ts:38-70 | the outcomes of the attempts fix the result, the attempt count and the sleeps |
| Http.AlwaysFailing | packages/etl/src/lib/http.ts:58-64 | an always-failing source gets exactly `maxRetries` attempts and one fewer sleeps, and the last error is rethrown |
| Http.DefaultScheduleOnFailure | packages/etl/src/lib/http.ts:29-34 | with the defaults a failing fetch makes 3 attempts and sleeps 5000 then 10000 ms |
| Http.BackoffTotal | packages/etl/src/lib/http.ts:66-68 | n waits sum to `retryDelay * n * (n + 1) / 2` |
| Http.FetchText | packages/etl/src/lib/http.ts:80-101 | a single attempt gives the body exactly when the response is ok, else null; it never throws |
| Http.FetchTextIsOneAttempt | packages/etl/src/lib/http.ts:80-101 | a single attempt agrees with the retry loop limited to one attempt, which never sleeps |
| Env.Missing | packages/etl/src/config/env.ts:30 | a key is reported exactly when it is required and absent or empty |
| Env.MissingAppend | packages/etl/src/config/env.ts:30 | missing keys keep the order of `required` |
| Env.MissingMessage | packages/etl/src/config/env.ts:32-35 | the message is the fixed prefix, the missing keys joined by ", ", then the fixed advice line |
| Env.ValidateEnv | packages/etl/src/config/env.ts:29-37 | fails exactly when some required key is missing, with the message listing the missing keys |
| Env.EmptyRequiredPasses | packages/etl/src/config/env.ts:29-37 | an empty requirement list never fails |
| Env.ValidateEnvMonotone | packages/etl/src/config/env.ts:30-31 | passing for a list means passing for each part of it |
| Env.EnvOrEmpty | packages/etl/src/config/env.ts:16-24 | the `?? ''` settings are empty exactly when the variable is missing |
| Orchestrator.RunSteps | packages/etl/src/orchestrators/run-all.ts:47-68 | each step runs once in list order; completed + failed equals the step count; completed is the number of steps that succeed |
| Orchestrator.ScheduleRunsEachStepOnce | packages/etl/src/orchestrators/run-all.ts:50-55 | the runs in the trace are the steps, each once, in order, with no retry |
| Orchestrator.SchedulePauses | packages/etl/src/orchestrators/run-all.ts:63-67 | a finished loop over n steps pauses max(0, n - 1) times |
| Orchestrator.ScheduleEndsWithLastRun | packages/etl/src/orchestrators/run-all.ts:63-67 | no pause follows the last step |
| Orchestrator.RunSequence | packages/etl/src/orchestrators/run-all.ts:41-75 | the environment is validated first; if that fails no step runs; otherwise the step loop runs as above |
| Orchestrator.RunAll | packages/etl/src/orchestrators/run-all.ts:31-42 | the legislative pipeline runs only discovery, once, with no pause |
| Orchestrator.RunMercadoPublico | packages/etl/src/orchestrators/run-mp.ts:24-56 | with its empty step list the procurement pipeline completes 0, fails 0 and never pauses |
| Discovery.ChosenId | packages/etl/src/etls/legislativo/discovery.ts:71-74 | the candidate is the first non-nullish of `@_Boletin`, `Boletin`, `@_BOLETIN` |
| Discovery.ItemId | packages/etl/src/etls/legislativo/discovery.ts:69-76 | an id is taken exactly when the item is an object and its candidate is a non-empty string |
| Discovery.Add | packages/etl/src/etls/legislativo/discovery.ts:76 | set insertion: the list only grows, gains exactly the new id, and stays duplicate-free |
| Discovery.Collect | packages/etl/src/etls/legislativo/discovery.ts:67-79 | the ids collected under one matched key are exactly those of its items |
| Discovery.Walk | packages/etl/src/etls/legislativo/discovery.ts:55-90 | the walk adds exactly the ids of `Ids(node)`, the set of every id under a `Proyecto`/`PROYECTO_LEY` key at any depth; the accumulator only grows and stays duplicate-free |
| Discovery.WalkEntries | packages/etl/src/etls/legislativo/discovery.ts:64-84 | an object contributes the ids under its matched keys and those found by descending into every value |
| Discovery.WalkItems | packages/etl/src/etls/legislativo/discovery.ts:85-88 | an array contributes the ids of every element |
| Discovery.ScalarsListNothing | packages/etl/src/etls/legislativo/discovery.ts:59-61 | null and scalars contribute nothing |
| Discovery.IdsOfElement | packages/etl/src/etls/legislativo/discovery.ts:85-88 | an id found in any array element is found in the array |
| Discovery.IdsOfValue | packages/etl/src/etls/legislativo/discovery.ts:83 | an id found in any object value, matched key or not, is found in the object |
| Discovery.ListedIdsComplete | packages/etl/src/etls/legislativo/discovery.ts:68-76 | every item under a matched key that has an id contributes it |
| Discovery.ListedIdsSound | packages/etl/src/etls/legislativo/discovery.ts:68-76 | every id collected under a matched key comes from one of its items |
| Discovery.EmptyAttributeDoesNotFallThrough | packages/etl/src/etls/legislativo/discovery.ts:71-75 | an empty `@_Boletin` hides `Boletin`, while a null one falls through to it |
| Discovery.KeyMatchIsCaseSensitive | packages/etl/src/etls/legislativo/discovery.ts:65 | `proyecto` is not matched and `Proyecto` is |
| Discovery.ExtractFromSesion | packages/etl/src/etls/legislativo/discovery.ts:96-113 | the list is duplicate-free; it is empty when the fetch or parse fails; otherwise it holds exactly the ids under `BOLETINXML.SESION` |
| Discovery.SortDesc | packages/etl/src/etls/legislativo/discovery.ts:139 | the sort is a permutation ordered by decreasing numeric ID |
| Discovery.Top | packages/etl/src/etls/legislativo/discovery.ts:139-144 | sort then `slice(0, n)` keeps min(n, len) entries, sorted, and none of those left out has a larger ID than one kept |
| Discovery.TopStartsWithLargest | packages/etl/src/etls/legislativo/discovery.ts:164-171 | the first entry kept has the largest ID of the list |
| Discovery.SesionRowOf | packages/etl/src/etls/legislativo/discovery.ts:175-187 | the row id is "DIP-" followed by the session ID; camara is "Diputados"; `numero` is `parseInt` of `Numero`, or 0 when it is missing; `legislatura` is `parseInt` of the period ID; `fecha` is `parseDateISO(Fecha)`, present only for a truthy `Fecha`; `tipo` is `Tipo`; `updated_at` is now |
| Discovery.SesionRowIdInjective | packages/etl/src/etls/legislativo/discovery.ts:180 | sessions with different IDs get different row ids |
| Discovery.VisitSession | packages/etl/src/etls/legislativo/discovery.ts:203-219 | a session's bills are the duplicate-free list found in its own bill document, fetched by the session ID; a 500 ms pause follows every session |
| Discovery.VisitSessions | packages/etl/src/etls/legislativo/discovery.ts:202-220 | each selected session is looked up once, in order, gets the bills of its own document, and is followed by a 500 ms pause |
| Discovery.SelectedSessions | packages/etl/src/etls/legislativo/discovery.ts:163-204 | the 20 sessions with the largest IDs give one row each and one bill lookup each, in the same order, each row's id being "DIP-" followed by that session's ID |
| Discovery.VisitPeriod | packages/etl/src/etls/legislativo/discovery.ts:144-220 | a failed session fetch moves on with no rows; a parse error or null document throws; IDs that are not all numbers leave the order unspecified; otherwise the selected sessions' rows and lookups |
| Discovery.Loop | packages/etl/src/etls/legislativo/discovery.ts:144-221 | for any per-period step: the periods are visited in order, each as the step gives it; every period before the last visited one finished; a loop that finishes visited all of them and all finished; otherwise it ends with the status of the last visited period |
| Discovery.VisitPeriods | packages/etl/src/etls/legislativo/discovery.ts:144-221 | the same loop over `VisitPeriod`: period i is `VisitPeriod` of the i-th period, and the loop stops at the first period that throws or cannot be ordered, ending with that status |
| Discovery.RunDiscovery | packages/etl/src/etls/legislativo/discovery.ts:117-226 | no period list means nothing is done; a parse error or null document throws before any period; IDs that are not all numbers leave the order unspecified; otherwise the period loop over the five periods with the largest IDs |
| Discovery.RunVisitsTopPeriods | packages/etl/src/etls/legislativo/discovery.ts:138-144 | a finished run visits exactly the (up to) five periods with the largest IDs, most recent first, each visited as `VisitPeriod` visits it (so with its top 20 sessions) |
| Discovery.SesionesWrites | packages/etl/src/etls/legislativo/discovery.ts:194-199 | a period's session rows are upserted into `sesiones` on `id`, in chunks of at most 100, each once and in order; no write without rows |
| Discovery.BoletinesWrites | packages/etl/src/etls/legislativo/discovery.ts:205-215 | a session's bills are written to `proyectos_ley` on `boletin` with duplicates ignored, in chunks of at most 100, one row per bill, in order; no write without bills |
| SenadoDetails.WithKey | packages/etl/src/etls/legislativo/senado-details.ts:84-88 | a group holds only senators of that key, in source order |
| SenadoDetails.Group | packages/etl/src/etls/legislativo/senado-details.ts:83-90 | a key is present exactly when some senator has it, and maps to all such senators in order |
| SenadoDetails.GroupFilesEverySenator | packages/etl/src/etls/legislativo/senado-details.ts:84-88 | every senator with a surname is filed under their lower-cased paternal surname and under no other key |
| SenadoDetails.WithKeyComplete | packages/etl/src/etls/legislativo/senado-details.ts:84-88 | no senator is left out of their group |
| SenadoDetails.LoadSenadoresMap | packages/etl/src/etls/legislativo/senado-details.ts:70-91 | a failed query gives the empty map; a senator with a null surname makes the load throw; otherwise the grouping above, every group non-empty and filed under its members' key |
| SenadoDetails.CleanParlamentarioName | packages/etl/src/etls/legislativo/senado-details.ts:97-109 | exactly one comma gives surname = trimmed text before it and name = trimmed text after it; otherwise the raw text is the name and the surname is empty |
| SenadoDetails.CleanNameOf | packages/etl/src/etls/legislativo/senado-details.ts:101-106 | "Surname, Name" splits into its trimmed halves |
| SenadoDetails.LookupKey | packages/etl/src/etls/legislativo/senado-details.ts:121 | the key is the lower-cased text before the first space |
| SenadoDetails.FirstMatch | packages/etl/src/etls/legislativo/senado-details.ts:129-137 | the tie-break stops at the first candidate whose lower-cased name contains, or is contained in, the given name; it throws when it reaches a candidate without a name first; it passes every candidate only when all have names and none matches |
| SenadoDetails.FindSenadorId | packages/etl/src/etls/legislativo/senado-details.ts:115-141 | null exactly when the surname group is missing or empty; a single candidate is returned; otherwise the first matching candidate or else the first, or an exception from the scan; an id is always from that group |
| SenadoDetails.LookupKeyTuma | packages/etl/src/etls/legislativo/senado-details.ts:120-121 | "Tuma Z." looks up "tuma" |
| SenadoDetails.EugenioIsNotJuan | packages/etl/src/etls/legislativo/senado-details.ts:131-133 | neither of "juan" and "eugenio" contains the other |
| SenadoDetails.TieBreakByGivenName | packages/etl/src/etls/legislativo/senado-details.ts:128-137 | with two senators named Tuma, "Eugenio" resolves to the second, not the first |
| SenadoDetails.NamelessCandidateThrows | packages/etl/src/etls/legislativo/senado-details.ts:130-133 | a candidate without a name ahead of the matching one makes the lookup throw |
| SenadoDetails.UnknownSurname | packages/etl/src/etls/legislativo/senado-details.ts:123-124 | an unknown surname resolves to null |
| SenadoDetails.QueryBoletin | packages/etl/src/etls/legislativo/senado-details.ts:173-175 | the query is the text before the first '-', or the whole bill number |
| SenadoDetails.Header | packages/etl/src/etls/legislativo/senado-details.ts:204-233 | reading the vote throws exactly for a null vote, a subject that is not text, or a truthy date that is not text; otherwise the id is the hash of the raw bill, the raw date text and the first 50 subject characters, in the generated range; `materia` is the first 500 characters; `fecha` is the converted truthy date or null; `resultado`, `quorum`, `tipo_votacion`, `updated_at` as written |
| SenadoDetails.ResultadoTally | packages/etl/src/etls/legislativo/senado-details.ts:227 | the tally text copies the SI, NO and ABSTENCION counts as given, and each absent count reads "0" |
| SenadoDetails.HeaderIdUsesRawText | packages/etl/src/etls/legislativo/senado-details.ts:212-216 | the id uses the raw bill number and the raw `FECHA` text, not the converted date |
| SenadoDetails.BallotLine | packages/etl/src/etls/legislativo/senado-details.ts:251-266 | a null ballot, a truthy non-text name or a throwing lookup throws; a ballot is kept exactly when the lookup gives a non-zero id, as the row of that senator under the raw name with the vote id |
| SenadoDetails.Ballots | packages/etl/src/etls/legislativo/senado-details.ts:243-267 | the vote's detail is abandoned exactly when some ballot throws; otherwise the rows are the kept ballots' rows, in ballot order, all carrying the vote id |
| SenadoDetails.UnresolvedBallotDropped | packages/etl/src/etls/legislativo/senado-details.ts:256-258 | a line whose senator does not resolve adds no row |
| SenadoDetails.VisitVote | packages/etl/src/etls/legislativo/senado-details.ts:203-279 | a vote whose reading throws (a null vote among them) is skipped; otherwise its header is written first; a rejected header stops the vote; ballots follow an accepted header and are exactly the vote's ballot rows, or the detail is abandoned when a ballot throws |
| SenadoDetails.NoDetailWithoutHeader | packages/etl/src/etls/legislativo/senado-details.ts:235-240 | a rejected header means no ballot insert for that vote |
| SenadoDetails.VisitVotes | packages/etl/src/etls/legislativo/senado-details.ts:203-280 | every vote is visited once, in order, since per-vote errors are absorbed |
| SenadoDetails.VisitBill | packages/etl/src/etls/legislativo/senado-details.ts:171-291 | the URL uses the stripped bill number; a failed fetch pauses 200 ms; a parse error or null document pauses 300 ms with no vote; a document without votes continues with no pause; otherwise every vote is visited and the pause is 300 ms |
| SenadoDetails.RunSenadoDetails | packages/etl/src/etls/legislativo/senado-details.ts:145-296 | a senator with a null surname ends the run before any bill; a failed bill query does nothing; otherwise one visit per bill, in order, against the loaded index |
| SenadoDetails.EmptyIndexResolvesNothing | packages/etl/src/etls/legislativo/senado-details.ts:256-258 | with no senators loaded no ballot is written |
| HistoricalDetails.TextIfTruthy | packages/etl/src/etls/legislativo/historical-details.ts:130-136 | `x ? String(x) : null`: a value exactly for truthy input, and that value is its text |
| HistoricalDetails.Shape | packages/etl/src/etls/legislativo/historical-details.ts:111-120 | a string is used as is, an object gives its field (null if absent), anything else null |
| HistoricalDetails.ShapeText | packages/etl/src/etls/legislativo/historical-details.ts:111-133 | a field given as text is itself, except that empty text is null; given as an object, its truthy member as text; anything else null. `resultado` reads member `#text` and `opcion_voto` member `Nombre` (lines 167-183) |
| HistoricalDetails.ShapesAgree | packages/etl/src/etls/legislativo/historical-details.ts:111-120 | the bare-string and wrapped-object shapes give the same value |
| HistoricalDetails.ScalarShapesAreNull | packages/etl/src/etls/legislativo/historical-details.ts:167-176 | numbers, booleans and null give null in both fields |
| HistoricalDetails.Header | packages/etl/src/etls/legislativo/historical-details.ts:107-140 | the header id is `parseInt(ID)`; `fecha` is `parseDateISO(Fecha)`; `resultado` as above; `materia` and `quorum` are the text of a truthy `Tipo.Nombre` / `Quorum.Nombre` and null otherwise; `updated_at` is now |
| HistoricalDetails.DeputyNameOf | packages/etl/src/etls/legislativo/historical-details.ts:182 | clean given name and surname give "Nombre Apellido_Paterno" |
| HistoricalDetails.DeputyNameEmpty | packages/etl/src/etls/legislativo/historical-details.ts:182 | missing parts count as empty, and the trimmed result is "" |
| HistoricalDetails.BallotLine | packages/etl/src/etls/legislativo/historical-details.ts:162-184 | a null ballot throws; a ballot is kept exactly when `Diputado.DIPID` is truthy, as the row with the vote id, `parseInt(DIPID)`, "Diputados", the trimmed "Nombre Apellido_Paterno" and the option |
| HistoricalDetails.Ballots | packages/etl/src/etls/legislativo/historical-details.ts:161-185 | the detail is read exactly when no ballot is null, and then the rows are the kept ballots' rows, in order, all with the vote's id |
| HistoricalDetails.BallotsCountIdentified | packages/etl/src/etls/legislativo/historical-details.ts:163-164 | the row count is the number of ballots with a truthy DIPID |
| HistoricalDetails.EmittedIdentified | packages/etl/src/etls/legislativo/historical-details.ts:163-164 | the ballots that give a row are those with a truthy DIPID |
| HistoricalDetails.VisitVote | packages/etl/src/etls/legislativo/historical-details.ts:100-201 | a vote is skipped exactly when its ID is falsy; the header comes first and a rejected one stops the vote; after an accepted header the vote's detail document is fetched by ID: none or empty text means no detail, a parse error, null document or null ballot drops the detail, otherwise the ballots written are exactly those of the detail document |
| HistoricalDetails.PauseAfter | packages/etl/src/etls/legislativo/historical-details.ts:142-200 | a vote is followed by a 200 ms pause exactly when its detail step completes (no detail document, or ballots read); skipped votes, rejected headers and failed detail reads have none |
| HistoricalDetails.PauseAfterDetailStep | packages/etl/src/etls/legislativo/historical-details.ts:100-200 | a vote is followed by a pause exactly when it has an ID, its header is accepted, and its detail document is absent or its ballots are read without an exception |
| HistoricalDetails.NoDetailWithoutHeader | packages/etl/src/etls/legislativo/historical-details.ts:142-145 | a rejected header ends the vote with no ballot written |
| HistoricalDetails.VisitVotes | packages/etl/src/etls/legislativo/historical-details.ts:100-202 | votes are visited in order; a null vote aborts the rest of the bill |
| HistoricalDetails.VisitBill | packages/etl/src/etls/legislativo/historical-details.ts:78-208 | the URL is the Chamber's vote list for the bill number; a failed fetch moves on; a parse error or null document abandons the bill; otherwise the vote loop over `Votaciones.Votacion`; every bill ends with one 200 ms pause |
| HistoricalDetails.RunHistoricalDetails | packages/etl/src/etls/legislativo/historical-details.ts:53-213 | a failed bill query does nothing; otherwise one visit per bill, in order |
| HistoricalDetails.EveryBallotHasAcceptedHeader | packages/etl/src/etls/legislativo/historical-details.ts:142-196 | across the whole run, every ballot written belongs to a vote whose header was accepted and has that vote's id |
| Proyectos.Boletines | packages/etl/src/etls/legislativo/proyectos.ts:56-74 | a failed or empty store query is replaced by ['8575-07', '16197-07'] |
| Proyectos.CleanId | packages/etl/src/etls/legislativo/proyectos.ts:82 | the query id is the text before the first '-' |
| Proyectos.CleanIdOf | packages/etl/src/etls/legislativo/proyectos.ts:82 | "number-check" queries as "number" |
| Proyectos.FechaIngreso | packages/etl/src/etls/legislativo/proyectos.ts:105 | `fecha_ingreso` is `parseDateDMY` of the text; a falsy value gives null; a non-text value throws |
| Proyectos.ProyectoItem | packages/etl/src/etls/legislativo/proyectos.ts:101-117 | a non-null entry without a truthy `descripcion.boletin` is skipped; a null entry or an unreadable entry date throws; every other entry gives its row, with missing fields null and the link from `link_mensaje_mocion` |
| Proyectos.MinimalDescription | packages/etl/src/etls/legislativo/proyectos.ts:105-117 | a description with only a number and a date gives that row with nulls elsewhere |
| Proyectos.VisitBill | packages/etl/src/etls/legislativo/proyectos.ts:80-131 | the URL uses the bill number without check digit; a failed or empty fetch writes nothing and does not fail; a parse error or null document fails; otherwise the bill fails exactly when the entry loop throws and else its rows are the loop's rows; every bill is followed by a 500 ms pause |
| Proyectos.BillWrites | packages/etl/src/etls/legislativo/proyectos.ts:120-125 | a bill's rows are upserted into `proyectos_ley` on `boletin` in chunks of at most 100, each once and in order; no write without rows |
| Proyectos.RunProyectos | packages/etl/src/etls/legislativo/proyectos.ts:51-136 | one visit per bill of the list, in order |
| Proyectos.EmptyStoreQueriesBootstrap | packages/etl/src/etls/legislativo/proyectos.ts:72-83 | an empty store queries exactly bills 8575 and 16197 |
| Diputados.Partido | packages/etl/src/etls/legislativo/diputados.ts:80-89 | `partido` is the `Partido` of the last militancy, or null when there is none or it lacks one |
| Diputados.PhotoUrl | packages/etl/src/etls/legislativo/diputados.ts:98 | the photo link is the fixed prefix, the DIPID text, then "&pT=1" |
| Diputados.DiputadoItem | packages/etl/src/etls/legislativo/diputados.ts:77-104 | a row with id `parseInt(DIPID)`, `distrito` null and copied or null fields; a null last militancy skips the entry; a null entry escapes the loop |
| Diputados.DeputyOfLastParty | packages/etl/src/etls/legislativo/diputados.ts:80-98 | the party is the last militancy's, whatever the earlier ones say |
| Diputados.RunDiputados | packages/etl/src/etls/legislativo/diputados.ts:43-115 | a failed fetch writes nothing; the rows come from roster entries |
| Diputados.OneRowPerDeputy | packages/etl/src/etls/legislativo/diputados.ts:75-112 | each readable roster entry gives exactly one row, in roster order |
| Diputados.DiputadosWrites | packages/etl/src/etls/legislativo/diputados.ts:107-112 | the rows are upserted into `diputados` on `id` in chunks of at most 100, each once and in order; no write without rows |
| Senado.SenadorItem | packages/etl/src/etls/legislativo/senado.ts:75-93 | id is `parseInt(PARLID)`; fields are copied or null; `telefono` from `FONO`; `url_foto` from `FOTO` |
| Senado.BareSenator | packages/etl/src/etls/legislativo/senado.ts:78-88 | a senator with only an id gives that id and nulls |
| Senado.RunSenado | packages/etl/src/etls/legislativo/senado.ts:42-104 | a failed fetch writes nothing; the rows come from roster entries |
| Senado.OneRowPerSenator | packages/etl/src/etls/legislativo/senado.ts:75-101 | with no null entry each entry gives one row in order; a null entry means nothing is written |
| Senado.SenadoresWrites | packages/etl/src/etls/legislativo/senado.ts:96-101 | the rows are upserted into `senadores` on `id` in chunks of at most 100, each once and in order; no write without rows |
| Mapping.MapItems | packages/etl/src/etls/mercadopublico/licitaciones.ts:68-96 | the loop completes exactly when no item throws, and every row comes from an item that emits it |
| Mapping.MapItemsAppend | packages/etl/src/etls/mercadopublico/licitaciones.ts:68-96 | rows keep input order: the rows of `a + b` are those of `a` followed by those of `b` |
| Mapping.MapItemsAllEmit | packages/etl/src/etls/legislativo/senado.ts:75-93 | when every item emits there is one row per item, in order |
| Mapping.Survivors | packages/etl/src/etls/mercadopublico/licitaciones.ts:68-96 | the reference list of a loop's rows: the rows of the emitting items, in item order; never longer than the items |
| Mapping.MapItemsSurvivors | packages/etl/src/etls/mercadopublico/licitaciones.ts:68-96 | a loop that completes gives exactly the reference list |
| Mapping.NothingEmitted | packages/etl/src/etls/legislativo/senado-details.ts:251-267 | when no item emits, the loop gives no row |
| Mapping.Iterate | packages/etl/src/etls/mercadopublico/ordenes.ts:74 | `for..of` goes over an array's elements, or over a string's characters, element i being the one-character string of character i; any other value throws |
| Mapping.RunRoster | packages/etl/src/etls/legislativo/senado.ts:48-101 | a failed fetch writes nothing; an empty roster stops; a parse or loop exception is reported; otherwise the mapped rows |
| Mapping.EmptyRosterWritesNothing | packages/etl/src/etls/legislativo/senado.ts:65-68 | an empty roster returns with no write |
| Ordenes.OrdenRowOf | packages/etl/src/etls/mercadopublico/ordenes.ts:76-90 | `codigo` is `Codigo`; `tipo` is "Orden de Compra"; `sector` defaults to "Sin Clasificar"; `fecha` falls back to now; `organismo`, `monto`, `moneda`, `estado`, `descripcion` and the supplier fields are the named fields or null |
| Ordenes.OrdenItem | packages/etl/src/etls/mercadopublico/ordenes.ts:74-95 | every non-null order gives its row; a null order escapes the loop |
| Ordenes.ProcessOrdenes | packages/etl/src/etls/mercadopublico/ordenes.ts:66-99 | no `Listado` gives []; otherwise one row per order, in order, completing exactly when no order is null |
| Ordenes.Firsts | packages/etl/src/etls/mercadopublico/ordenes.ts:101-115 | never more suppliers than orders |
| Ordenes.FirstsFromOrders | packages/etl/src/etls/mercadopublico/ordenes.ts:106-111 | every supplier has a truthy RUT and comes from a first occurrence in the orders |
| Ordenes.HasFirsts | packages/etl/src/etls/mercadopublico/ordenes.ts:109-111 | a truthy RUT is among the suppliers exactly when some order carries it |
| Ordenes.FirstsDistinct | packages/etl/src/etls/mercadopublico/ordenes.ts:109-114 | no two suppliers share a RUT |
| Ordenes.FirstsComplete | packages/etl/src/etls/mercadopublico/ordenes.ts:106-112 | every order with a truthy RUT has its supplier in the output |
| Ordenes.FirstsHasObject | packages/etl/src/etls/mercadopublico/ordenes.ts:104-110 | an object-valued RUT, a distinct `Map` key by identity, always gets its own entry |
| Ordenes.FirstNameWins | packages/etl/src/etls/mercadopublico/ordenes.ts:109-114 | for a repeated RUT the name of its first order is the one kept |
| Ordenes.ExtractProveedores | packages/etl/src/etls/mercadopublico/ordenes.ts:101-115 | the loop computes the first-occurrence list: no longer than the orders, distinct RUTs, every RUT truthy, and a truthy RUT is present exactly when some order carries the same key |
| Ordenes.RunOrdenes | packages/etl/src/etls/mercadopublico/ordenes.ts:119-165 | the day's URL is fetched; fetch or parse failure writes nothing; the run throws exactly when processing the orders throws; no rows writes nothing; a non-empty processed list is written as the orders and then their first-occurrence suppliers |
| Ordenes.OrdenesWrites | packages/etl/src/etls/mercadopublico/ordenes.ts:146-162 | the orders are upserted into `datos_mercadopublico` on `codigo` in chunks of at most 100, then the suppliers into `proveedores` on `rut` in chunks of at most 500, and only when there are any; each row once and in order |
| Licitaciones.Codigo | packages/etl/src/etls/mercadopublico/licitaciones.ts:71 | `CodigoExterno`, falling back to `CodigoExternal` only when the former is nullish |
| Licitaciones.LicitacionItem | packages/etl/src/etls/mercadopublico/licitaciones.ts:68-94 | a falsy code skips the tender; a null tender escapes the loop; otherwise the fields are copied or null and the dates converted |
| Licitaciones.EmptyExternoHidesExternal | packages/etl/src/etls/mercadopublico/licitaciones.ts:71-72 | an empty `CodigoExterno` hides a valid `CodigoExternal` and the tender is skipped |
| Licitaciones.ExternalFallback | packages/etl/src/etls/mercadopublico/licitaciones.ts:71 | a tender with only `CodigoExternal` uses it |
| Licitaciones.ProcessLicitaciones | packages/etl/src/etls/mercadopublico/licitaciones.ts:58-97 | no `Listado` gives []; the loop completes exactly when no tender is null; the rows are those of the tenders with a code, in order |
| Licitaciones.SurvivorsKeepOrder | packages/etl/src/etls/mercadopublico/licitaciones.ts:68-96 | surviving tenders keep their relative order |
| Licitaciones.RunLicitaciones | packages/etl/src/etls/mercadopublico/licitaciones.ts:101-134 | the day's URL is fetched; fetch or parse failure writes nothing; the run throws exactly when processing the tenders throws; an empty clean list writes nothing; a non-empty one is exactly the rows upserted |
| Licitaciones.LicitacionesWrites | packages/etl/src/etls/mercadopublico/licitaciones.ts:128-130 | the rows are upserted into `licitaciones` on `codigo` in chunks of at most 100, each once and in order |

## Left out

- I/O, `AbortController` timeouts and timers are not modelled: the network is a function of the URL (or of the attempt number) and pauses are recorded as numbers of milliseconds: `SessionVisit.pause` in Discovery, `BillVisit.pause` in Proyectos, SenadoDetails and HistoricalDetails, `HistoricalDetails.PauseAfter` for each vote, and the orchestrators' pauses between steps. The retry loop's waits are recorded as `Http.Backoff` sleeps. The same goes for `console` logging (`logger.ts`), dotenv loading and the Supabase clients (`config/supabase.ts`).
- `parseXml` and `JSON.parse` are parameters, because they are foreign libraries. Their output is the `Node` tree with the `@_` attribute prefix as given.
- The MD5 digest is a parameter into [0, 2^128), so bit-exactness against the earlier Python version is out of reach.
- Strings are sequences of characters, not UTF-16 code units. `toLowerCase` is modelled for ASCII and Latin-1 capitals only; other scripts' case mapping is left out.
- `Object.entries` order (integer-like keys first) is not modelled; XML element names cannot start with a digit.
- Dates.ParseDateISO: the `new Date(...)` conversion is a parameter, because it depends on the runtime's date parser. The `Date` built inside `parseDateDMYToISO`, `now()` and both `getYesterdayDDMMYYYY` functions are parameters for the same reason (time zone and clock); the text screening before that `Date` is modelled.
- Strings.ParseInt accepts only an optional '-' followed by decimal digits, with anything else giving NaN (`None`). `parseInt`'s prefix parsing ("12abc" gives 12) is not modelled.
- Discovery.RunDiscovery: if some ID in a period or session list does not parse as a number, the run ends as `OrderUnspecified`. The model neither reproduces the engine's order for a comparator returning NaN nor the `TypeError` a null entry raises inside the comparator.
- Discovery.SortDesc states sortedness and permutation but not stability, which `Array.prototype.sort` guarantees and which only matters for equal IDs.
- Batch.BatchUpsert requires a positive batch size. With 0 or a negative size the source loop never ends; every caller uses the default or 500.
- Batch.BatchInsert requires a positive batch size, for the same reason. The source returns 0 for empty data with any size, and never ends for non-empty data with size 0 or less.
- Batch.UpsertWrites requires a positive batch size, for the same reason.
- Batch.InsertWrites requires a positive batch size, for the same reason.
- Batch.WriteChunks: the store's conflict and `ignoreDuplicates` handling is server behaviour. The model records which rows each write carries and counts the accepted ones.
- SenadoDetails.LoadSenadoresMap: keys such as `__proto__` or `constructor`, which collide with `Object.prototype` in a plain-object map, are not modelled.
- Ordenes.FirstsHasObject assumes object-valued RUTs are pairwise distinct `Map` keys, as they are by identity; equal objects are not merged.
- The totals the extractors count and log (`totalBoletinesFound`, `countVotos`, `totalVotosGuardados`, `totalUpdated`) are not modelled, because they are only logged. Each visit records what was written, so totals follow from it.
- Hash.GenerateVotacionId follows the code's inclusive range [100000000, 999999999], as does the file's doc comment.
- Numbers in parsed documents are integers. A fractional `MontoTotal` or `MontoEstimado` in the procurement JSON cannot be represented; the model copies whatever number it is given.
- Repeated keys in a parsed object are not modelled: the parser parameters are taken to produce none, and lookups read the first entry.
