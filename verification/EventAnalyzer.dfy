/** diagnostics/event_analyzer.py: categories of Windows events and their summary. */
module EventAnalyzer {
  import opened Prelude
  import opened Storage

  datatype Category =
    | KernelPower | BugCheck | Whea | DiskError | Display
    | ShutdownClean | ShutdownUnexpected | ServiceControl | Other

  const CATEGORIES: seq<Category> :=
    [KernelPower, BugCheck, Whea, DiskError, Display, ShutdownClean, ShutdownUnexpected, ServiceControl, Other]

  datatype ProviderFamily = KernelPowerProviders | BugCheckProviders | WheaProviders | DiskProviders | DisplayProviders

  /** The provider names of each family, as listed. */
  function Names(f: ProviderFamily): seq<string> {
    match f
    case KernelPowerProviders => ["Microsoft-Windows-Kernel-Power", "Kernel-Power"]
    case BugCheckProviders =>
      ["Microsoft-Windows-WER-SystemErrorReporting", "BugCheck", "Microsoft-Windows-WER-SystemErrorReporting "]
    case WheaProviders => ["Microsoft-Windows-WHEA-Logger", "WHEA-Logger"]
    case DiskProviders => ["disk", "ntfs", "storahci", "stornvme", "iaStor", "msahci"]
    case DisplayProviders =>
      ["display", "dxgkrnl", "nvlddmkm", "amdkmdag", "igfx", "igdkmd64", "igfxCUIService", "aticfx64"]
  }

  function EventLogProvider(): string {
    "EventLog"
  }

  function ServiceControlProvider(): string {
    "Service Control Manager"
  }

  predicate IsDiskErrorId(id: int) {
    id in {7, 9, 11, 15, 51, 52, 55, 98, 129, 140, 153, 157}
  }

  predicate IsCleanShutdownId(id: int) {
    id == 6006 || id == 1074
  }

  predicate IsUnexpectedShutdownId(id: int) {
    id == 6008
  }

  /* ---- text ---- */

  function LowerChar(c: char): char {
    if 'A' <= c <= 'Z' then c + ('a' - 'A') else c
  }

  function Lower(s: string): (r: string)
    ensures |r| == |s|
  {
    seq(|s|, i requires 0 <= i < |s| => LowerChar(s[i]))
  }

  predicate Blank(c: char) {
    c == ' ' || '\t' <= c <= '\r' || '\U{1C}' <= c <= '\U{1F}'
  }

  function Strip(s: string): string
    decreases |s|
  {
    if s == "" then ""
    else if Blank(s[0]) then Strip(s[1..])
    else if Blank(s[|s| - 1]) then Strip(s[..|s| - 1])
    else s
  }

  predicate OccursAt(text: string, needle: string, i: nat) {
    i <= |text| && needle <= text[i..]
  }

  predicate Contains(text: string, needle: string) {
    exists i :: 0 <= i <= |text| && OccursAt(text, needle, i)
  }

  /** Some name of the family occurs in the text, upper or lower case. */
  predicate ContainsAny(text: string, f: ProviderFamily) {
    exists k :: 0 <= k < |Names(f)| && Contains(Lower(text), Lower(Names(f)[k]))
  }

  /* ---- one event ---- */

  function Provider(e: EventRow): string {
    Strip(if e.provider.Some? then e.provider.value else "")
  }

  /** The low 16 bits; Python's & on a negative integer is the residue, as % is here. */
  function EventId(raw: Option<int>): Option<int> {
    if raw.None? then None else Some(raw.value % 0x1_0000)
  }

  function Message(e: EventRow): string {
    Lower(if e.message.Some? then e.message.value else "")
  }

  function Classify(e: EventRow): Category {
    var provider := Provider(e);
    var id := EventId(e.eventId);
    if id == Some(41) && (ContainsAny(provider, KernelPowerProviders) || provider == EventLogProvider()) then
      KernelPower
    else if ContainsAny(provider, BugCheckProviders) || (id == Some(1001) && Contains(Message(e), "bugcheck")) then
      BugCheck
    else if ContainsAny(provider, WheaProviders) || Contains(Lower(provider), "whea") then
      Whea
    else if ContainsAny(provider, DiskProviders) && id.Some? && IsDiskErrorId(id.value) then
      DiskError
    else if ContainsAny(provider, DisplayProviders) then
      Display
    else if id.Some? && IsCleanShutdownId(id.value) then
      ShutdownClean
    else if id.Some? && IsUnexpectedShutdownId(id.value) then
      ShutdownUnexpected
    else if provider == ServiceControlProvider() then
      ServiceControl
    else
      Other
  }

  /* ---- summaries ---- */

  function InCategory(c: Category): EventRow -> bool {
    (e: EventRow) => Classify(e) == c
  }

  function OfCategory(events: seq<EventRow>, c: Category): seq<EventRow> {
    Filter(events, InCategory(c))
  }

  function CountOf(events: seq<EventRow>, c: Category): nat {
    |OfCategory(events, c)|
  }

  /** The dictionary keys exist only for categories met. */
  datatype Summary = Summary(counts: map<Category, nat>, byCategory: map<Category, seq<EventRow>>) {
    function Count(c: Category): nat {
      if c in counts then counts[c] else 0
    }

    predicate Detected(c: Category) {
      Count(c) > 0
    }

    /** The entries of one category: a counter and a list, or neither when nothing was met. */
    ghost predicate Entry(c: Category, met: seq<EventRow>) {
      && (c in counts <==> met != [])
      && (c in byCategory <==> met != [])
      && (met != [] ==> counts[c] == |met| && byCategory[c] == met)
    }

    /** What a summary of `events` has to be: every category's events, in order, and how many. */
    ghost predicate Summarizes(events: seq<EventRow>) {
      forall c :: Entry(c, OfCategory(events, c))
    }
  }

  function Summarized(events: seq<EventRow>): Summary {
    Summary(map c | c in CATEGORIES && OfCategory(events, c) != [] :: CountOf(events, c),
            map c | c in CATEGORIES && OfCategory(events, c) != [] :: OfCategory(events, c))
  }

  lemma SummarizedSummarizes(events: seq<EventRow>)
    ensures Summarized(events).Summarizes(events)
    ensures forall c :: Summarized(events).Count(c) == CountOf(events, c)
  {
  }

  /** One turn of the loop: bump the category's counter, append to its list. */
  lemma OneMoreEvent(s: Summary, events: seq<EventRow>, e: EventRow)
    requires s.Summarizes(events)
    ensures
      var c := Classify(e);
      var list := if c in s.byCategory then s.byCategory[c] else [];
      Summary(s.counts[c := s.Count(c) + 1], s.byCategory[c := list + [e]]).Summarizes(events + [e])
  {
    var c := Classify(e);
    var list := if c in s.byCategory then s.byCategory[c] else [];
    var after := Summary(s.counts[c := s.Count(c) + 1], s.byCategory[c := list + [e]]);
    forall d ensures after.Entry(d, OfCategory(events + [e], d)) {
      FilterSnoc(events, e, InCategory(d));
      assert s.Entry(d, OfCategory(events, d));
    }
  }

  method Summarize(events: seq<EventRow>) returns (s: Summary)
    ensures s == Summarized(events)
  {
    var counts: map<Category, nat> := map[];
    var byCategory: map<Category, seq<EventRow>> := map[];
    for i := 0 to |events|
      invariant Summary(counts, byCategory).Summarizes(events[..i])
    {
      var c := Classify(events[i]);
      OneMoreEvent(Summary(counts, byCategory), events[..i], events[i]);
      assert events[..i + 1] == events[..i] + [events[i]];
      counts := counts[c := (if c in counts then counts[c] else 0) + 1];
      byCategory := byCategory[c := (if c in byCategory then byCategory[c] else []) + [events[i]]];
    }
    assert events[..|events|] == events;
    s := Summary(counts, byCategory);
    SummarizedSummarizes(events);
    SummaryIsUnique(s, Summarized(events), events);
  }

  lemma SummaryIsUnique(a: Summary, b: Summary, events: seq<EventRow>)
    requires a.Summarizes(events) && b.Summarizes(events)
    ensures a == b
  {
    forall c ensures (c in a.counts <==> c in b.counts) && (c in a.byCategory <==> c in b.byCategory)
    ensures c in a.counts ==> a.counts[c] == b.counts[c]
    ensures c in a.byCategory ==> a.byCategory[c] == b.byCategory[c] {
      assert a.Entry(c, OfCategory(events, c)) && b.Entry(c, OfCategory(events, c));
    }
    assert a.counts == b.counts && a.byCategory == b.byCategory;
  }

  /* ---- partition ---- */

  function Gathered(events: seq<EventRow>, cs: seq<Category>): seq<EventRow> {
    if cs == [] then [] else Gathered(events, cs[..|cs| - 1]) + OfCategory(events, cs[|cs| - 1])
  }

  function Total(events: seq<EventRow>, cs: seq<Category>): nat {
    if cs == [] then 0 else Total(events, cs[..|cs| - 1]) + CountOf(events, cs[|cs| - 1])
  }

  ghost predicate Distinct<T>(s: seq<T>) {
    forall i, j :: 0 <= i < j < |s| ==> s[i] != s[j]
  }

  lemma {:induction false} GatheredOneMore(events: seq<EventRow>, e: EventRow, cs: seq<Category>)
    requires Distinct(cs)
    ensures multiset(Gathered(events + [e], cs))
         == multiset(Gathered(events, cs)) + (if Classify(e) in cs then multiset{e} else multiset{})
    ensures Total(events + [e], cs) == Total(events, cs) + if Classify(e) in cs then 1 else 0
  {
    if cs != [] {
      var c := cs[|cs| - 1];
      var rest := cs[..|cs| - 1];
      assert cs == rest + [c];
      GatheredOneMore(events, e, rest);
      FilterSnoc(events, e, InCategory(c));
    }
  }

  /** A list naming every category once. */
  ghost predicate AllCategories(cs: seq<Category>) {
    Distinct(cs) && forall c: Category :: c in cs
  }

  lemma CategoriesAreAll()
    ensures AllCategories(CATEGORIES)
  {
    forall c: Category ensures c in CATEGORIES {
      match c {
        case KernelPower => assert CATEGORIES[0] == c;
        case BugCheck => assert CATEGORIES[1] == c;
        case Whea => assert CATEGORIES[2] == c;
        case DiskError => assert CATEGORIES[3] == c;
        case Display => assert CATEGORIES[4] == c;
        case ShutdownClean => assert CATEGORIES[5] == c;
        case ShutdownUnexpected => assert CATEGORIES[6] == c;
        case ServiceControl => assert CATEGORIES[7] == c;
        case Other => assert CATEGORIES[8] == c;
      }
    }
  }

  lemma {:induction false} PartitionOver(events: seq<EventRow>, cs: seq<Category>)
    requires AllCategories(cs)
    ensures multiset(Gathered(events, cs)) == multiset(events)
    ensures Total(events, cs) == |events|
  {
    if events == [] {
      EmptyGathered(cs);
    } else {
      var last := events[|events| - 1];
      var rest := events[..|events| - 1];
      assert events == rest + [last];
      PartitionOver(rest, cs);
      GatheredOneMore(rest, last, cs);
    }
  }

  /** Every event lands in exactly one of the nine categories: their lists together are a permutation of the input and
      their counts add up to its length. */
  lemma Partition(events: seq<EventRow>)
    ensures multiset(Gathered(events, CATEGORIES)) == multiset(events)
    ensures Total(events, CATEGORIES) == |events|
  {
    hide Gathered, Total;
    CategoriesAreAll();
    PartitionOver(events, CATEGORIES);
  }

  lemma {:induction false} EmptyGathered(cs: seq<Category>)
    ensures Gathered([], cs) == [] && Total([], cs) == 0
  {
    if cs != [] {
      EmptyGathered(cs[..|cs| - 1]);
    }
  }

  /** Summaries are additive: summarising a concatenation adds the counts. */
  lemma Homomorphism(a: seq<EventRow>, b: seq<EventRow>, c: Category)
    ensures Summarized(a + b).Count(c) == Summarized(a).Count(c) + Summarized(b).Count(c)
    ensures OfCategory(a + b, c) == OfCategory(a, c) + OfCategory(b, c)
  {
    FilterConcat(a, b, InCategory(c));
    SummarizedSummarizes(a);
    SummarizedSummarizes(b);
    SummarizedSummarizes(a + b);
  }

  /* ---- storage format of ids ---- */

  /** The same events, each id moved by some multiple of 65536 (signed storage included). */
  ghost predicate SameUpToHighBits(a: seq<EventRow>, b: seq<EventRow>) {
    |a| == |b| && forall i :: 0 <= i < |a| ==> SameLowBits(a[i], b[i])
  }

  ghost predicate SameLowBits(a: EventRow, b: EventRow) {
    && b == a.(eventId := b.eventId)
    && a.eventId.Some? == b.eventId.Some?
    && (a.eventId.Some? ==> exists k: int :: b.eventId.value == a.eventId.value + k * 0x1_0000)
  }

  lemma LowBitsDecide(a: EventRow, b: EventRow)
    requires SameLowBits(a, b)
    ensures Classify(a) == Classify(b)
  {
    hide Strip, Lower, Contains, ContainsAny, IsDiskErrorId, IsCleanShutdownId, IsUnexpectedShutdownId;
    if a.eventId.Some? {
      var k: int :| b.eventId.value == a.eventId.value + k * 0x1_0000;
      ResidueOfShift(a.eventId.value, k);
    }
  }

  lemma ResidueOfShift(x: int, k: int)
    ensures (x + k * 0x1_0000) % 0x1_0000 == x % 0x1_0000
  {
  }

  /** How an id was stored (signed, or with high bits set) cannot change a summary's counts. */
  lemma {:induction false} HighBitsIrrelevant(a: seq<EventRow>, b: seq<EventRow>)
    requires SameUpToHighBits(a, b)
    ensures Summarized(a).counts == Summarized(b).counts
  {
    forall c ensures CountOf(a, c) == CountOf(b, c) {
      CountsAgree(a, b, c);
    }
    SummarizedSummarizes(a);
    SummarizedSummarizes(b);
    assert Summarized(a).counts.Keys == Summarized(b).counts.Keys;
  }

  lemma {:induction false} CountsAgree(a: seq<EventRow>, b: seq<EventRow>, c: Category)
    requires SameUpToHighBits(a, b)
    ensures CountOf(a, c) == CountOf(b, c)
  {
    if a != [] {
      CountsAgree(a[..|a| - 1], b[..|b| - 1], c);
      LowBitsDecide(a[|a| - 1], b[|b| - 1]);
    }
  }
}
