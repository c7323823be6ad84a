/** The clock-free date reshaping of packages/etl/src/lib/dates.ts:
    `DD/MM/YYYY` and `DDMMYYYY` to `YYYY-MM-DD`. No calendar check is made:
    both functions only move text around. */
module Dates {
  import opened Wrappers
  import opened Strings
  import opened Tree

  /** `parseDateDMY(date)` (dates.ts:14-23). `None` in and out stands for
      `null`/`undefined`. */
  function ParseDateDMY(date: Option<string>): (r: Option<string>)
    ensures date.None? || date.value == "" ==> r.None?
    ensures r.Some? ==> date.Some? && |Split(date.value, '/')| == 3
  {
    match date
    case None => None
    case Some(s) =>
      if s == "" then None
      else
        var parts := Split(s, '/');
        if |parts| != 3 then None
        else
          var day, month, year := parts[0], parts[1], parts[2];
          if day == "" || month == "" || year == "" then None
          else Some(year + "-" + PadStart(month, 2, '0') + "-" + PadStart(day, 2, '0'))
  }

  /** The date text is accepted exactly when it has two slashes and none of the
      three parts between them is empty. */
  lemma ParseDateDMYAccepts(s: string)
    ensures ParseDateDMY(Some(s)).Some? <==>
      (Occurrences(s, '/') == 2 && forall i :: 0 <= i < |Split(s, '/')| ==> Split(s, '/')[i] != "")
  {
    SplitCount(s, '/');
    var parts := Split(s, '/');
    if s == "" {
      assert parts == [""] && parts[0] == "";
    } else if |parts| == 3 {
      assert (forall i :: 0 <= i < |parts| ==> parts[i] != "")
         <==> parts[0] != "" && parts[1] != "" && parts[2] != "";
    }
  }

  /** `parseDateDMYToISO(date)` (dates.ts:58-70): the text is screened as
      `parseDateDMY` screens it, so null, empty text, a count of parts other
      than three or an empty part give `null` whatever the time zone. What
      follows (a local-time `Date` of `parseInt` of year, month and day, and
      its UTC rendering) depends on the time zone and is the parameter
      `instant`. */
  function ParseDateDMYToISO(instant: (Option<int>, Option<int>, Option<int>) -> Option<string>,
                             date: Option<string>): (r: Option<string>)
    ensures ParseDateDMY(date).None? ==> r.None?
    ensures ParseDateDMY(date).Some? ==>
      var parts := Split(date.value, '/');
      r == instant(ParseInt(parts[2]), ParseInt(parts[1]), ParseInt(parts[0]))
  {
    if ParseDateDMY(date).None? then None
    else
      var parts := Split(date.value, '/');
      instant(ParseInt(parts[2]), ParseInt(parts[1]), ParseInt(parts[0]))
  }

  /** Day, month and year written `day/month/year` come back as
      `year-MM-DD`, the month and day left-padded with '0' to two characters
      (a longer part is kept whole, never cut). */
  lemma ParseDateDMYOf(day: string, month: string, year: string)
    requires day != "" && month != "" && year != ""
    requires '/' !in day && '/' !in month && '/' !in year
    ensures ParseDateDMY(Some(day + "/" + month + "/" + year))
         == Some(year + "-" + PadStart(month, 2, '0') + "-" + PadStart(day, 2, '0'))
  {
    var parts := [day, month, year];
    JoinSplit(parts, '/');
    assert parts[1..] == [month, year] && parts[1..][1..] == [year];
    assert Join([year], "/") == year;
    assert Join([month, year], "/") == month + "/" + year;
    assert Join(parts, "/") == day + "/" + (month + "/" + year);
    assert day + "/" + month + "/" + year == Join(parts, ['/']);
    assert Split(day + "/" + month + "/" + year, '/') == parts;
  }

  /** A well-formed two-digit day and month are copied unchanged. */
  lemma ParseDateDMYCanonical(day: string, month: string, year: string)
    requires |day| == 2 && |month| == 2 && year != ""
    requires '/' !in day && '/' !in month && '/' !in year
    ensures ParseDateDMY(Some(day + "/" + month + "/" + year)) == Some(year + "-" + month + "-" + day)
  {
    ParseDateDMYOf(day, month, year);
  }

  /** `parseDateCompact(date)` (dates.ts:44-52): `DDMMYYYY` to `YYYY-MM-DD`,
      anything whose length is not 8 to `null`. */
  function ParseDateCompact(date: Option<string>): (r: Option<string>)
    ensures r.Some? <==> date.Some? && |date.value| == 8
    ensures r.Some? ==> |r.value| == 10 && r.value[4] == '-' && r.value[7] == '-'
  {
    match date
    case None => None
    case Some(s) =>
      if |s| != 8 then None
      else Some(s[4..8] + "-" + s[2..4] + "-" + s[0..2])
  }

  /** Reads `YYYY-MM-DD` back into `DDMMYYYY`. */
  function CompactOf(iso: string): string
    requires |iso| == 10
  {
    iso[8..10] + iso[5..7] + iso[0..4]
  }

  /** The compact date can be recovered from the output, so distinct inputs
      never give the same output. */
  lemma ParseDateCompactInverse(s: string)
    requires |s| == 8
    ensures ParseDateCompact(Some(s)).Some?
    ensures CompactOf(ParseDateCompact(Some(s)).value) == s
  {
    var r := ParseDateCompact(Some(s)).value;
    assert r[8..10] == s[0..2];
    assert r[5..7] == s[2..4];
    assert r[0..4] == s[4..8];
    assert s == s[0..2] + s[2..4] + s[4..8];
  }

  lemma ParseDateCompactInjective(a: string, b: string)
    requires ParseDateCompact(Some(a)).Some?
    requires ParseDateCompact(Some(a)) == ParseDateCompact(Some(b))
    ensures a == b
  {
    ParseDateCompactInverse(a);
    ParseDateCompactInverse(b);
  }

  /** `parseDateISO(date)` (dates.ts:29-38). The reading of the text as a
      calendar instant is the clock's business and is the parameter `iso`
      (`None` for an invalid date); the function itself only guards against
      falsy input, and it never throws. */
  function ParseDateISO(iso: Node -> Option<string>, date: Option<Node>): (r: Option<string>)
    ensures !Truthy(date) ==> r.None?
    ensures Truthy(date) ==> r == iso(date.value)
  {
    if Truthy(date) then iso(date.value) else None
  }
}
