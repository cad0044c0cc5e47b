/** The audit gate: vulnerabilities drawn from a `pnpm audit` report against the exception list. */
module AuditGate {
  import opened Wrappers
  import opened PyText
  import opened AuditExceptions

  // ---- The report ----

  /** A scalar field of the report; `Null` is also an absent field. */
  datatype Scalar = Null | Str(text: string) | Num(n: int) {
    predicate Truthy() {
      match this
      case Null => false
      case Str(text) => text != ""
      case Num(n) => n != 0
    }

    /** Python's `self or other`. */
    function Or(other: Scalar): Scalar {
      if Truthy() then this else other
    }

    /** `str(self)`, for anything but None. */
    function Show(): string {
      match this
      case Null => ""
      case Str(text) => text
      case Num(n) => Decimal(n)
    }
  }

  function Digits(n: nat): string {
    (if n < 10 then "" else Digits(n / 10)) + ["0123456789"[n % 10]]
  }

  function Decimal(n: int): string {
    if n < 0 then "-" + Digits(-n) else Digits(n)
  }

  datatype Advisory = Advisory(
    moduleName: Scalar, name: Scalar, severity: Option<string>, githubAdvisoryId: Scalar, url: Scalar,
    cves: seq<Scalar>, id: Scalar, title: Scalar, advisory: Scalar, overview: Scalar)

  datatype Via =
    | Link(githubAdvisoryId: Scalar, url: Scalar, source: Scalar, title: Scalar, name: Scalar)
    | Name(text: string)
    | OtherVia

  datatype ViaField = ViaList(items: seq<Via>) | ViaText(text: string) | ViaOther

  datatype Vulnerability = Vulnerability(name: string, severity: Option<string>, via: ViaField)

  /** `None` stands for a section that is absent or not a dictionary. */
  datatype Report = Report(advisories: Option<seq<Advisory>>, vulnerabilities: Option<seq<Vulnerability>>)

  /** What the generator yields; the title only feeds the error text. */
  datatype Finding = Finding(name: Scalar, severity: Option<string>, advisory: Scalar)

  function PickAdvisoryId(a: Advisory): Scalar {
    a.githubAdvisoryId
    .Or(a.url
    .Or((if a.cves == [] then Null else a.cves[0])
    .Or((if a.id == Null then Null else Str(a.id.Show()))
    .Or(a.title
    .Or(a.advisory
    .Or(a.overview))))))
  }

  function ViaId(via: Via): Scalar {
    match via
    case Link(ghsa, url, source, title, name) => ghsa.Or(url.Or(source.Or(title.Or(name))))
    case Name(text) => Str(text)
    case OtherVia => Null
  }

  function ViaItems(via: ViaField): seq<Via> {
    match via
    case ViaList(items) => items
    case ViaText(text) => [Name(text)]
    case ViaOther => []
  }

  function AdvisoryFindings(advisories: seq<Advisory>): seq<Finding> {
    if advisories == [] then []
    else
      var a := advisories[0];
      [Finding(a.moduleName.Or(a.name), a.severity, PickAdvisoryId(a))] + AdvisoryFindings(advisories[1..])
  }

  function ItemFindings(name: string, severity: Option<string>, items: seq<Via>): seq<Finding> {
    if items == [] then []
    else
      (if ViaId(items[0]).Truthy() then [Finding(Str(name), severity, ViaId(items[0]))] else [])
      + ItemFindings(name, severity, items[1..])
  }

  function VulnerabilityFindings(vulnerabilities: seq<Vulnerability>): seq<Finding> {
    if vulnerabilities == [] then []
    else
      var v := vulnerabilities[0];
      ItemFindings(v.name, v.severity, ViaItems(v.via)) + VulnerabilityFindings(vulnerabilities[1..])
  }

  /** Everything `iter_vulns` yields, in order. */
  function Findings(report: Report): seq<Finding> {
    (if report.advisories.Some? then AdvisoryFindings(report.advisories.value) else [])
    + (if report.vulnerabilities.Some? then VulnerabilityFindings(report.vulnerabilities.value) else [])
  }

  /** Rearranging, repeating or merging entries of either section rearranges or repeats the findings. */
  lemma FindingsAreSources(report: Report, f: Finding)
    ensures f in Findings(report) <==>
      || (report.advisories.Some? && exists a | a in report.advisories.value ::
           f == Finding(a.moduleName.Or(a.name), a.severity, PickAdvisoryId(a)))
      || (report.vulnerabilities.Some? && exists v, via | v in report.vulnerabilities.value && via in ViaItems(v.via) ::
           ViaId(via).Truthy() && f == Finding(Str(v.name), v.severity, ViaId(via)))
  {
    if report.advisories.Some? {
      AdvisorySources(report.advisories.value, f);
    }
    if report.vulnerabilities.Some? {
      VulnerabilitySources(report.vulnerabilities.value, f);
    }
  }

  lemma {:induction false} AdvisorySources(advisories: seq<Advisory>, f: Finding)
    ensures f in AdvisoryFindings(advisories) <==>
      exists a | a in advisories :: f == Finding(a.moduleName.Or(a.name), a.severity, PickAdvisoryId(a))
  {
    hide PickAdvisoryId, Scalar.Or;
    if advisories != [] {
      AdvisorySources(advisories[1..], f);
      assert advisories == [advisories[0]] + advisories[1..];
    }
  }

  lemma {:induction false} ItemSources(name: string, severity: Option<string>, items: seq<Via>, f: Finding)
    ensures f in ItemFindings(name, severity, items) <==>
      exists via | via in items :: ViaId(via).Truthy() && f == Finding(Str(name), severity, ViaId(via))
  {
    hide ViaId, Scalar.Truthy;
    if items != [] {
      ItemSources(name, severity, items[1..], f);
      assert items == [items[0]] + items[1..];
    }
  }

  lemma {:induction false} VulnerabilitySources(vulnerabilities: seq<Vulnerability>, f: Finding)
    ensures f in VulnerabilityFindings(vulnerabilities) <==>
      exists v, via | v in vulnerabilities && via in ViaItems(v.via) ::
        ViaId(via).Truthy() && f == Finding(Str(v.name), v.severity, ViaId(via))
  {
    hide ViaId, Scalar.Truthy, ViaItems;
    if vulnerabilities != [] {
      var v := vulnerabilities[0];
      ItemSources(v.name, v.severity, ViaItems(v.via), f);
      VulnerabilitySources(vulnerabilities[1..], f);
      assert vulnerabilities == [v] + vulnerabilities[1..];
    }
  }

  // ---- Normalisation ----

  function NormalizeSeverity(severity: Option<string>): string {
    match severity
    case None => ""
    case Some(s) => Lower(Strip(s))
  }

  function NormalizePackage(name: Scalar): string {
    Strip(name.Show())
  }

  function NormalizeAdvisory(advisory: Scalar): string {
    Lower(Strip(advisory.Show()))
  }

  type Key = (string, string)

  function FindingKey(f: Finding): Key {
    (NormalizePackage(f.name), NormalizeAdvisory(f.advisory))
  }

  /** The high or critical findings with a usable name: the only ones the gate looks at. */
  predicate Considered(f: Finding) {
    && (NormalizeSeverity(f.severity) == "high" || NormalizeSeverity(f.severity) == "critical")
    && f.name.Truthy()
  }

  // ---- The exception list ----

  const REQUIRED: seq<string> := ["package", "advisory", "severity", "mitigation", "expires_on"]

  /** ISO date to ordinal day, or None when it does not parse. */
  type DateReader = string -> Option<int>

  function Get(record: Record, field: string): string {
    if field in record then record[field] else ""
  }

  predicate Complete(record: Record) {
    forall field | field in REQUIRED :: Get(record, field) != ""
  }

  function RecordKey(record: Record): Key {
    (Strip(Get(record, "package")), Lower(Strip(Get(record, "advisory"))))
  }

  function RecordSeverity(record: Record): string {
    Lower(Strip(Get(record, "severity")))
  }

  /** One exception on its own: complete, dated and not blank after normalisation. */
  predicate Admissible(record: Record, dates: DateReader) {
    && Complete(record)
    && dates(Get(record, "expires_on")).Some?
    && RecordKey(record).0 != "" && RecordKey(record).1 != ""
  }

  predicate ListOk(records: seq<Record>, dates: DateReader) {
    && (forall i | 0 <= i < |records| :: Admissible(records[i], dates))
    && (forall i, j | 0 <= i < j < |records| :: RecordKey(records[i]) != RecordKey(records[j]))
  }

  /** The exception accepts a finding of this severity today; a blank severity accepts any. */
  predicate Accepts(record: Record, severity: string, dates: DateReader, today: int) {
    && (RecordSeverity(record) == "" || RecordSeverity(record) == severity)
    && dates(Get(record, "expires_on")).Some? && dates(Get(record, "expires_on")).value >= today
  }

  /** Some exception for the finding's key accepts it. */
  predicate Covered(f: Finding, records: seq<Record>, dates: DateReader, today: int) {
    exists r | r in records :: RecordKey(r) == FindingKey(f) && Accepts(r, NormalizeSeverity(f.severity), dates, today)
  }

  /** No earlier considered finding has the same key. */
  predicate FirstOfKey(findings: seq<Finding>, i: nat)
    requires i < |findings|
  {
    forall j | 0 <= j < i && Considered(findings[j]) :: FindingKey(findings[j]) != FindingKey(findings[i])
  }

  predicate FindingOk(findings: seq<Finding>, i: nat, records: seq<Record>, dates: DateReader, today: int)
    requires i < |findings|
  {
    var f := findings[i];
    Considered(f) ==>
      && NormalizeAdvisory(f.advisory) != ""
      && (FirstOfKey(findings, i) ==> Covered(f, records, dates, today))
  }

  predicate FindingsOk(findings: seq<Finding>, records: seq<Record>, dates: DateReader, today: int) {
    forall i | 0 <= i < |findings| :: FindingOk(findings, i, records, dates, today)
  }

  /** The condition the gate decides. */
  predicate GateOk(records: seq<Record>, findings: seq<Finding>, dates: DateReader, today: int) {
    ListOk(records, dates) && FindingsOk(findings, records, dates, today)
  }

  // ---- The gate ----

  datatype GateError =
    | MissingFields(record: Record)
    | InvalidDate(record: Record)
    | BlankKey(record: Record)
    | DuplicateException(record: Record)
    | MissingAdvisoryId(finding: Finding)
    | SeverityMismatch(finding: Finding, expected: string)
    | MissingException(finding: Finding)
    | Expired(finding: Finding, expires: int)

  datatype IndexEntry = IndexEntry(raw: Record, severity: string, expires: int)

  ghost predicate IndexFaithful(index: map<Key, IndexEntry>, records: seq<Record>, dates: DateReader) {
    && (forall k | k in index ::
         && index[k].raw in records && RecordKey(index[k].raw) == k
         && index[k].severity == RecordSeverity(index[k].raw)
         && dates(Get(index[k].raw, "expires_on")) == Some(index[k].expires))
    && (forall r | r in records && Admissible(r, dates) :: RecordKey(r) in index)
  }

  /** An earlier exception of the list already stands for this key. */
  predicate Taken(records: seq<Record>, i: nat, dates: DateReader)
    requires i < |records|
  {
    exists j | 0 <= j < i :: Admissible(records[j], dates) && RecordKey(records[j]) == RecordKey(records[i])
  }

  /** What is wrong with an exception, if anything: the first complaint that applies. */
  function RecordErrors(records: seq<Record>, i: nat, dates: DateReader): seq<GateError>
    requires i < |records|
  {
    var r := records[i];
    if !Complete(r) then [MissingFields(r)]
    else if dates(Get(r, "expires_on")).None? then [InvalidDate(r)]
    else if !Admissible(r, dates) then [BlankKey(r)]
    else if Taken(records, i, dates) then [DuplicateException(r)]
    else []
  }

  function ListErrors(records: seq<Record>, n: nat, dates: DateReader): seq<GateError>
    requires n <= |records|
  {
    if n == 0 then [] else ListErrors(records, n - 1, dates) + RecordErrors(records, n - 1, dates)
  }

  /** The index holds, under each key, the first exception of the list that stands for it. */
  ghost predicate IndexIsFirst(index: map<Key, IndexEntry>, records: seq<Record>, n: nat, dates: DateReader)
    requires n <= |records|
  {
    && (forall i | 0 <= i < n && Admissible(records[i], dates) :: RecordKey(records[i]) in index)
    && (forall k | k in index :: exists i | 0 <= i < n :: StandsFor(records, i, k, index[k], dates))
  }

  /** Exception `i` is the first of the list for this key, and this is its entry. */
  predicate StandsFor(records: seq<Record>, i: nat, k: Key, entry: IndexEntry, dates: DateReader)
    requires i < |records|
  {
    && Admissible(records[i], dates) && RecordKey(records[i]) == k && !Taken(records, i, dates)
    && entry == EntryOf(records[i], dates)
  }

  function EntryOf(r: Record, dates: DateReader): IndexEntry
    requires Admissible(r, dates)
  {
    IndexEntry(r, RecordSeverity(r), dates(Get(r, "expires_on")).value)
  }

  method BuildIndex(records: seq<Record>, dates: DateReader)
      returns (index: map<Key, IndexEntry>, errors: seq<GateError>)
    ensures errors == [] <==> ListOk(records, dates)
    ensures errors == ListErrors(records, |records|, dates)
    ensures IndexFaithful(index, records, dates) && IndexIsFirst(index, records, |records|, dates)
  {
    index, errors := map[], [];
    hide RecordKey, RecordSeverity, Get, Taken, IndexFaithful, ListOk;
    for i := 0 to |records|
      invariant errors == ListErrors(records, i, dates) && IndexIsFirst(index, records, i, dates)
    {
      var exc := records[i];
      TakenIsIndexed(index, records, i, dates);
      IndexStep(index, records, i, dates);
      hide IndexIsFirst;
      if exists field | field in REQUIRED :: Get(exc, field) == "" {
        errors := errors + [MissingFields(exc)];
        continue;
      }
      var severity := RecordSeverity(exc);
      var key := RecordKey(exc);
      var date := dates(Get(exc, "expires_on"));
      if date.None? {
        errors := errors + [InvalidDate(exc)];
        continue;
      }
      if key.0 == "" || key.1 == "" {
        errors := errors + [BlankKey(exc)];
        continue;
      }
      if key in index {
        errors := errors + [DuplicateException(exc)];
        continue;
      }
      index := index[key := IndexEntry(exc, severity, date.value)];
    }
    ListErrorsDecide(records, |records|, dates);
    FirstIsFaithful(index, records, dates);
    assert records[..|records|] == records;
  }

  /** One exception more: it enters the index exactly if it is admissible and its key is free. */
  lemma IndexStep(index: map<Key, IndexEntry>, records: seq<Record>, i: nat, dates: DateReader)
    requires i < |records| && IndexIsFirst(index, records, i, dates)
    ensures var r := records[i];
      if Admissible(r, dates) && !Taken(records, i, dates)
      then IndexIsFirst(index[RecordKey(r) := EntryOf(r, dates)], records, i + 1, dates)
      else IndexIsFirst(index, records, i + 1, dates)
  {
    hide Admissible, RecordKey, Taken, EntryOf;
    TakenIsIndexed(index, records, i, dates);
    var r := records[i];
    if Admissible(r, dates) && !Taken(records, i, dates) {
      var after := index[RecordKey(r) := EntryOf(r, dates)];
      assert StandsFor(records, i, RecordKey(r), EntryOf(r, dates), dates);
      hide StandsFor;
      forall k | k in after ensures exists j | 0 <= j < i + 1 :: StandsFor(records, j, k, after[k], dates) {
        if k != RecordKey(r) {
          var j :| 0 <= j < i && StandsFor(records, j, k, index[k], dates);
          assert StandsFor(records, j, k, after[k], dates);
        }
      }
    } else {
      hide StandsFor;
      forall k | k in index ensures exists j | 0 <= j < i + 1 :: StandsFor(records, j, k, index[k], dates) {
        var j :| 0 <= j < i && StandsFor(records, j, k, index[k], dates);
      }
    }
  }

  lemma NothingListed(dates: DateReader)
    ensures ListOk([], dates)
  {
  }

  /** The list has no error exactly if it is admissible. */
  lemma {:induction false} ListErrorsDecide(records: seq<Record>, n: nat, dates: DateReader)
    requires n <= |records|
    ensures ListErrors(records, n, dates) == [] <==> ListOk(records[..n], dates)
  {
    hide ListOk, RecordKey, Admissible, RecordErrors, Taken;
    if n == 0 {
      NothingListed(dates);
    } else {
      ListErrorsDecide(records, n - 1, dates);
      var last := records[n - 1];
      assert records[..n] == records[..n - 1] + [last];
      ListOkSnoc(records[..n - 1], last, dates);
      RecordErrorsDecide(records, n - 1, dates);
      if ListOk(records[..n - 1], dates) && Admissible(last, dates) {
        TakenInList(records, n - 1, dates);
      }
    }
  }

  lemma RecordErrorsDecide(records: seq<Record>, i: nat, dates: DateReader)
    requires i < |records|
    ensures RecordErrors(records, i, dates) == [] <==> Admissible(records[i], dates) && !Taken(records, i, dates)
  {
    hide RecordKey, Taken, Complete;
  }

  lemma TakenInList(records: seq<Record>, i: nat, dates: DateReader)
    requires i < |records| && ListOk(records[..i], dates)
    ensures Taken(records, i, dates) <==> exists r | r in records[..i] :: RecordKey(r) == RecordKey(records[i])
  {
    hide RecordKey, Admissible;
    if r :| r in records[..i] && RecordKey(r) == RecordKey(records[i]) {
      var j :| 0 <= j < i && records[..i][j] == r;
      assert Admissible(records[..i][j], dates) && records[j] == r;
    }
  }

  lemma FirstIsFaithful(index: map<Key, IndexEntry>, records: seq<Record>, dates: DateReader)
    requires IndexIsFirst(index, records, |records|, dates)
    ensures IndexFaithful(index, records, dates)
  {
    hide RecordKey, Taken, Complete, RecordSeverity, Get;
  }

  lemma TakenIsIndexed(index: map<Key, IndexEntry>, records: seq<Record>, i: nat, dates: DateReader)
    requires i < |records| && IndexIsFirst(index, records, i, dates)
    ensures Taken(records, i, dates) <==> RecordKey(records[i]) in index
  {
    hide Admissible, RecordKey;
  }

  lemma ListOkSnoc(records: seq<Record>, last: Record, dates: DateReader)
    ensures ListOk(records + [last], dates) <==>
      ListOk(records, dates) && Admissible(last, dates) && forall r | r in records :: RecordKey(r) != RecordKey(last)
  {
    hide Admissible, RecordKey;
    var all := records + [last];
    assert all[|records|] == last;
    assert forall i | 0 <= i < |records| :: all[i] == records[i];
  }

  lemma CoveredByIndex(f: Finding, index: map<Key, IndexEntry>, records: seq<Record>, dates: DateReader, today: int)
    requires ListOk(records, dates) && IndexFaithful(index, records, dates)
    ensures Covered(f, records, dates, today) <==>
      && FindingKey(f) in index
      && (index[FindingKey(f)].severity == "" || index[FindingKey(f)].severity == NormalizeSeverity(f.severity))
      && index[FindingKey(f)].expires >= today
  {
    hide Admissible, RecordKey, FindingKey, RecordSeverity, NormalizeSeverity;
    forall r | r in records && RecordKey(r) in index ensures r == index[RecordKey(r)].raw {
    }
  }

  ghost predicate SeenSoFar(seen: set<Key>, findings: seq<Finding>, i: nat)
    requires i <= |findings|
  {
    && (forall j | 0 <= j < i && Considered(findings[j]) && NormalizeAdvisory(findings[j].advisory) != "" ::
         FindingKey(findings[j]) in seen)
    && (forall k | k in seen :: exists j | 0 <= j < i :: Considered(findings[j]) && FindingKey(findings[j]) == k)
  }

  lemma SeenIsNotFirst(seen: set<Key>, findings: seq<Finding>, i: nat)
    requires i < |findings| && SeenSoFar(seen, findings, i)
    requires NormalizeAdvisory(findings[i].advisory) != ""
    ensures FindingKey(findings[i]) in seen <==> !FirstOfKey(findings, i)
  {
    hide Considered, NormalizeAdvisory, NormalizePackage;
  }

  /** The finding is looked up in the index: considered, identified, and the first of its key. */
  predicate LookedUp(findings: seq<Finding>, i: nat)
    requires i < |findings|
  {
    Considered(findings[i]) && NormalizeAdvisory(findings[i].advisory) != "" && FirstOfKey(findings, i)
  }

  function MissingOf(findings: seq<Finding>, n: nat, index: map<Key, IndexEntry>): seq<GateError>
    requires n <= |findings|
  {
    if n == 0 then []
    else
      var f := findings[n - 1];
      MissingOf(findings, n - 1, index)
      + if LookedUp(findings, n - 1) && FindingKey(f) !in index then [MissingException(f)] else []
  }

  function ExpiredOf(findings: seq<Finding>, n: nat, index: map<Key, IndexEntry>, today: int): seq<GateError>
    requires n <= |findings|
  {
    if n == 0 then []
    else
      var f := findings[n - 1];
      ExpiredOf(findings, n - 1, index, today)
      + if LookedUp(findings, n - 1) && FindingKey(f) in index && index[FindingKey(f)].expires < today
        then [Expired(f, index[FindingKey(f)].expires)] else []
  }

  function ComplaintsOf(findings: seq<Finding>, n: nat, index: map<Key, IndexEntry>): seq<GateError>
    requires n <= |findings|
  {
    if n == 0 then []
    else
      var f := findings[n - 1];
      ComplaintsOf(findings, n - 1, index)
      + if Considered(f) && NormalizeAdvisory(f.advisory) == "" then [MissingAdvisoryId(f)]
        else if LookedUp(findings, n - 1) && FindingKey(f) in index && index[FindingKey(f)].severity !in {"", NormalizeSeverity(f.severity)}
        then [SeverityMismatch(f, index[FindingKey(f)].severity)] else []
  }

  method CheckFindings(index: map<Key, IndexEntry>, findings: seq<Finding>, today: int,
                       ghost records: seq<Record>, ghost dates: DateReader)
      returns (errors: seq<GateError>, missing: seq<GateError>, expired: seq<GateError>)
    requires IndexFaithful(index, records, dates)
    ensures ListOk(records, dates) ==>
      (errors == missing == expired == [] <==> FindingsOk(findings, records, dates, today))
    ensures errors == ComplaintsOf(findings, |findings|, index)
    ensures missing == MissingOf(findings, |findings|, index) && expired == ExpiredOf(findings, |findings|, index, today)
  {
    hide Considered, NormalizeAdvisory, NormalizePackage, NormalizeSeverity, ListOk, IndexFaithful, Covered, FirstOfKey;
    errors, missing, expired := [], [], [];
    var seen: set<Key> := {};
    for i := 0 to |findings|
      invariant SeenSoFar(seen, findings, i)
      invariant ListOk(records, dates) ==> (errors == missing == expired == [] <==>
        forall j | 0 <= j < i :: FindingOk(findings, j, records, dates, today))
      invariant errors == ComplaintsOf(findings, i, index)
      invariant missing == MissingOf(findings, i, index) && expired == ExpiredOf(findings, i, index, today)
    {
      var f := findings[i];
      assert (forall j | 0 <= j < i + 1 :: FindingOk(findings, j, records, dates, today)) <==>
        (forall j | 0 <= j < i :: FindingOk(findings, j, records, dates, today)) && FindingOk(findings, i, records, dates, today);
      if !Considered(f) {
        assert FindingOk(findings, i, records, dates, today);
        continue;
      }
      var severity := NormalizeSeverity(f.severity);
      var advisory := NormalizeAdvisory(f.advisory);
      if advisory == "" {
        errors := errors + [MissingAdvisoryId(f)];
        continue;
      }
      var key := (NormalizePackage(f.name), advisory);
      SeenIsNotFirst(seen, findings, i);
      if key in seen {
        continue;
      }
      seen := seen + {key};
      if ListOk(records, dates) {
        CoveredByIndex(f, index, records, dates, today);
      }
      if key !in index {
        missing := missing + [MissingException(f)];
        continue;
      }
      var exc := index[key];
      if exc.severity != "" && exc.severity != severity {
        errors := errors + [SeverityMismatch(f, exc.severity)];
      }
      if exc.expires < today {
        expired := expired + [Expired(f, exc.expires)];
      }
    }
  }

  /** The gate decides its condition, and reports no error exactly when it passes. */
  method Decide(records: seq<Record>, findings: seq<Finding>, dates: DateReader, today: int)
      returns (code: int, errors: seq<GateError>)
    ensures code == if GateOk(records, findings, dates, today) then 0 else 1
    ensures code == 0 <==> errors == []
    ensures exists index ::
      && IndexIsFirst(index, records, |records|, dates)
      && errors == ListErrors(records, |records|, dates) + ComplaintsOf(findings, |findings|, index)
                   + MissingOf(findings, |findings|, index) + ExpiredOf(findings, |findings|, index, today)
  {
    var index, listErrors := BuildIndex(records, dates);
    var found, missing, expired := CheckFindings(index, findings, today, records, dates);
    errors := listErrors + found + missing + expired;
    code := if errors == [] then 0 else 1;
  }

  /** `main` on the text of the exception list and a decoded report; an unreadable list raises before any verdict. */
  method Run(text: string, report: Report, dates: DateReader, today: int) returns (result: Result<int>)
    ensures result.Raised? <==> AnyUnsplittable(Lines(text))
    ensures result.Ok? ==> Parse(text).Ok?
    ensures result.Ok? ==> (result.value == if GateOk(Parse(text).value, Findings(report), dates, today) then 0 else 1)
  {
    ParseRaisesExactly(text);
    var parsed := ParseExceptions(text);
    if parsed.Raised? {
      return Raised(parsed.line);
    }
    var code, errors := Decide(parsed.value, Findings(report), dates, today);
    result := Ok(code);
  }

  // ---- When the order of the findings matters ----

  /** The same findings, in any order and number. */
  ghost predicate SameFindings(a: seq<Finding>, b: seq<Finding>) {
    forall f :: f in a <==> f in b
  }

  /** Every considered finding has an advisory and is covered: a condition on the set of findings alone. */
  ghost predicate AllCovered(findings: seq<Finding>, records: seq<Record>, dates: DateReader, today: int) {
    forall f | f in findings && Considered(f) ::
      NormalizeAdvisory(f.advisory) != "" && Covered(f, records, dates, today)
  }

  /** Some finding with this key is covered. */
  ghost predicate KeyCovered(key: Key, findings: seq<Finding>, records: seq<Record>, dates: DateReader, today: int) {
    exists g | g in findings :: Considered(g) && FindingKey(g) == key && Covered(g, records, dates, today)
  }

  /** Every considered finding has an advisory, and a finding with its key that is covered. */
  ghost predicate EveryKeyCovered(findings: seq<Finding>, records: seq<Record>, dates: DateReader, today: int) {
    forall f | f in findings && Considered(f) ::
      NormalizeAdvisory(f.advisory) != "" && KeyCovered(FindingKey(f), findings, records, dates, today)
  }

  /** A considered finding's key has a first finding. */
  lemma {:induction false} FirstExists(findings: seq<Finding>, i: nat) returns (first: nat)
    requires i < |findings| && Considered(findings[i])
    ensures first <= i && Considered(findings[first]) && FindingKey(findings[first]) == FindingKey(findings[i])
    ensures FirstOfKey(findings, first)
  {
    hide Considered, FindingKey;
    if FirstOfKey(findings, i) {
      first := i;
    } else {
      var j :| 0 <= j < i && Considered(findings[j]) && FindingKey(findings[j]) == FindingKey(findings[i]);
      first := FirstExists(findings, j);
    }
  }

  lemma OkImpliesEveryKeyCovered(findings: seq<Finding>, records: seq<Record>, dates: DateReader, today: int)
    requires FindingsOk(findings, records, dates, today)
    ensures EveryKeyCovered(findings, records, dates, today)
  {
    hide Considered, FindingKey, NormalizeAdvisory, Covered;
    forall f | f in findings && Considered(f)
      ensures NormalizeAdvisory(f.advisory) != ""
      ensures KeyCovered(FindingKey(f), findings, records, dates, today)
    {
      var i :| 0 <= i < |findings| && findings[i] == f;
      assert FindingOk(findings, i, records, dates, today);
      var first := FirstExists(findings, i);
      assert FindingOk(findings, first, records, dates, today);
      assert findings[first] in findings;
    }
  }

  lemma AllCoveredImpliesOk(findings: seq<Finding>, records: seq<Record>, dates: DateReader, today: int)
    requires AllCovered(findings, records, dates, today)
    ensures FindingsOk(findings, records, dates, today)
  {
    hide Considered, FindingKey, NormalizeAdvisory, Covered;
  }

  /** The covered findings, in order. */
  function CoveredOnly(findings: seq<Finding>, records: seq<Record>, dates: DateReader, today: int): (r: seq<Finding>)
    ensures forall f :: f in r <==> f in findings && Considered(f) && Covered(f, records, dates, today)
  {
    if findings == [] then []
    else
      var f, rest := findings[0], CoveredOnly(findings[1..], records, dates, today);
      assert findings == [f] + findings[1..];
      if Considered(f) && Covered(f, records, dates, today) then [f] + rest else rest
  }

  /** Putting the covered findings first makes the gate pass, if every key has one. */
  lemma CoveredFirstPasses(findings: seq<Finding>, records: seq<Record>, dates: DateReader, today: int)
    requires EveryKeyCovered(findings, records, dates, today)
    ensures FindingsOk(CoveredOnly(findings, records, dates, today) + findings, records, dates, today)
  {
    hide Considered, FindingKey, NormalizeAdvisory, Covered, KeyCovered;
    var good := CoveredOnly(findings, records, dates, today);
    var all := good + findings;
    forall i | 0 <= i < |all| && Considered(all[i])
      ensures NormalizeAdvisory(all[i].advisory) != ""
      ensures FirstOfKey(all, i) ==> Covered(all[i], records, dates, today)
    {
      assert all[i] in findings;
      if i >= |good| {
        HasCoveredBefore(all[i], findings, good, records, dates, today);
        var j :| 0 <= j < |good| && Considered(good[j]) && FindingKey(good[j]) == FindingKey(all[i]);
        assert all[j] == good[j];
      }
    }
  }

  lemma HasCoveredBefore(f: Finding, findings: seq<Finding>, good: seq<Finding>,
                         records: seq<Record>, dates: DateReader, today: int)
    requires EveryKeyCovered(findings, records, dates, today) && f in findings && Considered(f)
    requires good == CoveredOnly(findings, records, dates, today)
    ensures exists j | 0 <= j < |good| :: Considered(good[j]) && FindingKey(good[j]) == FindingKey(f)
  {
    hide Considered, FindingKey, NormalizeAdvisory, Covered;
    var g :| g in findings && Considered(g) && FindingKey(g) == FindingKey(f) && Covered(g, records, dates, today);
    assert g in good;
  }

  /** Putting an uncovered finding first makes the gate fail. */
  lemma UncoveredFirstFails(f: Finding, findings: seq<Finding>, records: seq<Record>, dates: DateReader, today: int)
    requires Considered(f) && !Covered(f, records, dates, today)
    ensures !FindingsOk([f] + findings, records, dates, today)
  {
    var all := [f] + findings;
    assert FirstOfKey(all, 0);
    assert !FindingOk(all, 0, records, dates, today);
  }

  /** Rearranging or repeating findings can change the verdict exactly when every key has a covered finding
      but some finding is not covered: one key then carries two severities of different fate. */
  lemma OrderMattersExactly(findings: seq<Finding>, records: seq<Record>, dates: DateReader, today: int)
    ensures (exists other :: SameFindings(other, findings)
              && FindingsOk(other, records, dates, today) != FindingsOk(findings, records, dates, today))
       <==> EveryKeyCovered(findings, records, dates, today) && !AllCovered(findings, records, dates, today)
  {
    hide Considered, FindingKey, NormalizeAdvisory, Covered, FindingsOk, KeyCovered;
    if EveryKeyCovered(findings, records, dates, today) && !AllCovered(findings, records, dates, today) {
      var f :| f in findings && Considered(f) && !Covered(f, records, dates, today);
      var good := CoveredOnly(findings, records, dates, today);
      CoveredFirstPasses(findings, records, dates, today);
      UncoveredFirstFails(f, findings, records, dates, today);
      assert SameFindings(good + findings, findings);
      assert SameFindings([f] + findings, findings);
    } else {
      forall other | SameFindings(other, findings)
        ensures FindingsOk(other, records, dates, today) == FindingsOk(findings, records, dates, today)
      {
        VerdictBySet(other, records, dates, today);
        VerdictBySet(findings, records, dates, today);
        assert AllCovered(other, records, dates, today) == AllCovered(findings, records, dates, today);
        EveryKeyBySet(findings, other, records, dates, today);
      }
    }
  }

  lemma EveryKeyBySet(a: seq<Finding>, b: seq<Finding>, records: seq<Record>, dates: DateReader, today: int)
    requires SameFindings(a, b)
    ensures EveryKeyCovered(a, records, dates, today) <==> EveryKeyCovered(b, records, dates, today)
  {
    hide Considered, FindingKey, NormalizeAdvisory, Covered;
  }

  lemma VerdictBySet(findings: seq<Finding>, records: seq<Record>, dates: DateReader, today: int)
    ensures AllCovered(findings, records, dates, today) ==> FindingsOk(findings, records, dates, today)
    ensures FindingsOk(findings, records, dates, today) ==> EveryKeyCovered(findings, records, dates, today)
  {
    hide Considered, FindingKey, NormalizeAdvisory, Covered, FindingsOk, AllCovered, EveryKeyCovered;
    if AllCovered(findings, records, dates, today) {
      AllCoveredImpliesOk(findings, records, dates, today);
    }
    if FindingsOk(findings, records, dates, today) {
      OkImpliesEveryKeyCovered(findings, records, dates, today);
    }
  }

  /** Each (package, advisory) key carries a single high or critical severity. */
  ghost predicate SingleSeverity(findings: seq<Finding>) {
    forall f, g | f in findings && g in findings && Considered(f) && Considered(g) && FindingKey(f) == FindingKey(g) ::
      NormalizeSeverity(f.severity) == NormalizeSeverity(g.severity)
  }

  /** With one severity a key, neither order nor repetition of the findings changes the verdict. */
  lemma OrderIsIrrelevant(findings: seq<Finding>, other: seq<Finding>, records: seq<Record>, dates: DateReader, today: int)
    requires SingleSeverity(findings) && SameFindings(other, findings)
    ensures GateOk(records, other, dates, today) == GateOk(records, findings, dates, today)
  {
    hide Considered, FindingKey, NormalizeAdvisory, NormalizeSeverity, FindingsOk, EveryKeyCovered, AllCovered, ListOk;
    if EveryKeyCovered(findings, records, dates, today) {
      SingleSeverityCovers(findings, records, dates, today);
    }
    OrderMattersExactly(findings, records, dates, today);
  }

  lemma SingleSeverityCovers(findings: seq<Finding>, records: seq<Record>, dates: DateReader, today: int)
    requires SingleSeverity(findings) && EveryKeyCovered(findings, records, dates, today)
    ensures AllCovered(findings, records, dates, today)
  {
    hide Considered, FindingKey, NormalizeAdvisory, NormalizeSeverity, RecordKey, Accepts;
    forall f | f in findings && Considered(f)
      ensures NormalizeAdvisory(f.advisory) != "" && Covered(f, records, dates, today)
    {
      var g :| g in findings && Considered(g) && FindingKey(g) == FindingKey(f) && Covered(g, records, dates, today);
      assert NormalizeSeverity(f.severity) == NormalizeSeverity(g.severity);
    }
  }
}
