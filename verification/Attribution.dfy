/** Which transitions an event is attributed to, given the 120 second margin after each boot. */
module Attribution {
  import opened Prelude
  import opened Storage
  import opened BootDetector
  import opened EventAnalyzer
  import opened Configuration
  import opened Diagnosis
  import opened SessionChain
  import opened EngineSpec

  function BootTimes(sessions: seq<Session>): (boots: seq<Time>)
    ensures |boots| == |sessions|
  {
    seq(|sessions|, i requires 0 <= i < |sessions| => sessions[i].bootTime)
  }

  /** Boots in order, no two within `gap` of each other. */
  ghost predicate Apart(boots: seq<Time>, gap: real) {
    forall i, j :: 0 <= i < j < |boots| ==> boots[j] - boots[i] > gap
  }

  function CountBetween(events: seq<EventRow>, start: Time, end: Time): nat {
    |EventsBetween(events, start, end)|
  }

  /** Events attributed to the transitions into boots 1, 2, ...: each reads from the boot before to its own margin. */
  function Attributed(events: seq<EventRow>, boots: seq<Time>): nat {
    if |boots| < 2 then 0
    else
      var k := |boots| - 1;
      Attributed(events, boots[..k]) + CountBetween(events, boots[k - 1], boots[k] + BOOT_MARGIN_SECONDS)
  }

  /** Events in the margin right after each boot but the first and the last. */
  function InMargins(events: seq<EventRow>, boots: seq<Time>): nat {
    if |boots| < 3 then 0
    else
      var k := |boots| - 1;
      InMargins(events, boots[..k]) + CountBetween(events, boots[k - 1], boots[k - 1] + BOOT_MARGIN_SECONDS)
  }

  /** Extending a window to a later end adds the same events whatever its start. */
  lemma {:induction false} SameExtension(events: seq<EventRow>, a: Time, b: Time, mid: Time, end: Time)
    requires a <= mid && b <= mid && mid <= end
    ensures CountBetween(events, a, end) + CountBetween(events, b, mid)
         == CountBetween(events, b, end) + CountBetween(events, a, mid)
  {
    if events != [] {
      var rest := events[..|events| - 1];
      var last := events[|events| - 1];
      assert events == rest + [last];
      SameExtension(rest, a, b, mid, end);
      FilterSnoc(rest, last, Between(a, end));
      FilterSnoc(rest, last, Between(b, mid));
      FilterSnoc(rest, last, Between(b, end));
      FilterSnoc(rest, last, Between(a, mid));
    }
  }

  /** Attribution is conserved: over all transitions, the events from the first boot to the last margin are counted
      once, and exactly those in an interior margin once more. */
  lemma {:induction false} AttributionConserved(events: seq<EventRow>, boots: seq<Time>)
    requires |boots| >= 2 && Apart(boots, 0.0)
    ensures Attributed(events, boots)
         == CountBetween(events, boots[0], boots[|boots| - 1] + BOOT_MARGIN_SECONDS) + InMargins(events, boots)
  {
    var k := |boots| - 1;
    var rest := boots[..k];
    if k >= 2 {
      AttributionConserved(events, rest);
      SameExtension(events, boots[0], boots[k - 1], boots[k - 1] + BOOT_MARGIN_SECONDS, boots[k] + BOOT_MARGIN_SECONDS);
    } else {
      assert Attributed(events, rest) == 0;
    }
  }

  /* ---- event by event ---- */

  /** How many transitions an event at time t is attributed to. */
  function Hits(boots: seq<Time>, t: Time): nat {
    if |boots| < 2 then 0
    else
      var k := |boots| - 1;
      Hits(boots[..k], t) + if boots[k - 1] <= t <= boots[k] + BOOT_MARGIN_SECONDS then 1 else 0
  }

  predicate InteriorMargin(boots: seq<Time>, t: Time) {
    exists k :: 0 < k < |boots| - 1 && boots[k] <= t <= boots[k] + BOOT_MARGIN_SECONDS
  }

  lemma InteriorMarginGrows(boots: seq<Time>, t: Time)
    requires |boots| >= 3
    ensures
      var k := |boots| - 1;
      InteriorMargin(boots, t) <==>
        InteriorMargin(boots[..k], t) || boots[k - 1] <= t <= boots[k - 1] + BOOT_MARGIN_SECONDS
  {
    var k := |boots| - 1;
    var rest := boots[..k];
    if InteriorMargin(rest, t) {
      var i :| 0 < i < |rest| - 1 && rest[i] <= t <= rest[i] + BOOT_MARGIN_SECONDS;
      assert boots[i] == rest[i];
    }
    if InteriorMargin(boots, t) {
      var i :| 0 < i < |boots| - 1 && boots[i] <= t <= boots[i] + BOOT_MARGIN_SECONDS;
      if i < k - 1 {
        assert rest[i] == boots[i];
      }
    }
  }

  /** With boots more than the margin apart, an event is attributed to one transition if it lies between first boot and
      last margin, to two exactly if it lies in an interior margin, and never to three. */
  lemma {:induction false} AttributedAtMostTwice(boots: seq<Time>, t: Time)
    requires |boots| >= 2 && Apart(boots, BOOT_MARGIN_SECONDS)
    ensures Hits(boots, t)
         == (if boots[0] <= t <= boots[|boots| - 1] + BOOT_MARGIN_SECONDS then 1 else 0)
            + (if InteriorMargin(boots, t) then 1 else 0)
  {
    var k := |boots| - 1;
    var rest := boots[..k];
    if k >= 2 {
      AttributedAtMostTwice(rest, t);
      InteriorMarginGrows(boots, t);
      if InteriorMargin(rest, t) {
        var i :| 0 < i < |rest| - 1 && rest[i] <= t <= rest[i] + BOOT_MARGIN_SECONDS;
        assert boots[k - 1] - boots[i] > BOOT_MARGIN_SECONDS;
      }
    } else {
      assert Hits(rest, t) == 0;
    }
  }

  /** The two counts are the same count, taken by window and by event. */
  function TotalHits(events: seq<EventRow>, boots: seq<Time>): nat {
    if events == [] then 0
    else TotalHits(events[..|events| - 1], boots) + Hits(boots, events[|events| - 1].timestamp)
  }

  lemma {:induction false} AttributedOneMore(events: seq<EventRow>, e: EventRow, boots: seq<Time>)
    ensures Attributed(events + [e], boots) == Attributed(events, boots) + Hits(boots, e.timestamp)
  {
    if |boots| >= 2 {
      var k := |boots| - 1;
      AttributedOneMore(events, e, boots[..k]);
      FilterSnoc(events, e, Between(boots[k - 1], boots[k] + BOOT_MARGIN_SECONDS));
    }
  }

  lemma {:induction false} CountedByEvent(events: seq<EventRow>, boots: seq<Time>)
    ensures Attributed(events, boots) == TotalHits(events, boots)
  {
    if events == [] {
      NothingAttributed(boots);
    } else {
      var rest := events[..|events| - 1];
      assert events == rest + [events[|events| - 1]];
      CountedByEvent(rest, boots);
      AttributedOneMore(rest, events[|events| - 1], boots);
    }
  }

  lemma {:induction false} NothingAttributed(boots: seq<Time>)
    ensures Attributed([], boots) == 0
  {
    if |boots| >= 2 {
      NothingAttributed(boots[..|boots| - 1]);
    }
  }

  /* ---- on the session table ---- */

  /** The facts on-demand diagnosis reads for row k, as of when it was the latest. */
  function RowFacts(sessions: seq<Session>, k: nat): BootFacts
    requires k < |sessions|
  {
    LatestFacts(sessions[..k + 1], sessions[k])
  }

  /** In a chain, the engine's transition into row k runs from the boot of the row before it to its own margin. */
  lemma WindowOfRow(events: seq<EventRow>, sessions: seq<Session>, k: nat, cfg: Config)
    requires Chain(sessions) && 0 < k < |sessions|
    ensures |TransitionEvents(events, RowFacts(sessions, k), cfg)|
         == CountBetween(events, sessions[k - 1].bootTime, sessions[k].bootTime + BOOT_MARGIN_SECONDS)
  {
    assert Linked(sessions[k - 1], sessions[k]);
  }

  /** The sizes of the windows the engine diagnoses, over all rows that have a predecessor. */
  function Diagnosable(events: seq<EventRow>, sessions: seq<Session>, n: nat, cfg: Config): nat
    requires n <= |sessions|
  {
    if n < 2 then 0
    else Diagnosable(events, sessions, n - 1, cfg) + |TransitionEvents(events, RowFacts(sessions, n - 1), cfg)|
  }

  lemma {:induction false} DiagnosableIsAttributed(events: seq<EventRow>, sessions: seq<Session>, n: nat, cfg: Config)
    requires Chain(sessions) && n <= |sessions|
    ensures Diagnosable(events, sessions, n, cfg) == Attributed(events, BootTimes(sessions)[..n])
  {
    if n >= 2 {
      DiagnosableIsAttributed(events, sessions, n - 1, cfg);
      WindowOfRow(events, sessions, n - 1, cfg);
      assert BootTimes(sessions)[..n][..n - 1] == BootTimes(sessions)[..n - 1];
    }
  }

  /** Over the session table of any chain with boots more than the margin apart: summed over its rows, the events the
      engine diagnoses are those from first boot to last margin, once each, and those in an interior margin once more;
      no event is diagnosed more than twice, and twice exactly in such a margin. */
  lemma AttributionOverSessions(events: seq<EventRow>, sessions: seq<Session>, t: Time, cfg: Config)
    requires Chain(sessions) && |sessions| >= 2 && Apart(BootTimes(sessions), BOOT_MARGIN_SECONDS)
    ensures Diagnosable(events, sessions, |sessions|, cfg)
         == CountBetween(events, sessions[0].bootTime, sessions[|sessions| - 1].bootTime + BOOT_MARGIN_SECONDS)
            + InMargins(events, BootTimes(sessions))
    ensures Hits(BootTimes(sessions), t) <= 2
    ensures Hits(BootTimes(sessions), t) == 2 <==> InteriorMargin(BootTimes(sessions), t)
  {
    hide Diagnosable, Attributed, CountBetween, InMargins, Hits;
    var boots := BootTimes(sessions);
    DiagnosableIsAttributed(events, sessions, |sessions|, cfg);
    assert boots[..|sessions|] == boots;
    AttributionConserved(events, boots);
    AttributedAtMostTwice(boots, t);
    if InteriorMargin(boots, t) {
      var k :| 0 < k < |boots| - 1 && boots[k] <= t <= boots[k] + BOOT_MARGIN_SECONDS;
      assert boots[k] - boots[0] > BOOT_MARGIN_SECONDS && boots[|boots| - 1] - boots[k] > BOOT_MARGIN_SECONDS;
    }
  }

  /* ---- one blue screen, two incidents ---- */

  /** Whatever else is stored, a blue screen stamped just after one boot is declared again at the next boot, at full
      confidence and even if that session ended cleanly. */
  lemma BlueScreenDeclaredAgain(st: Store, b: BootFacts, cfg: Config, e: EventRow)
    requires cfg.interval > 0.0 && e in st.events && Classify(e) == BugCheck
    requires b.previousBootTime.Some? && b.previousBootTime.value < b.bootTime
    requires b.previousBootTime.value <= e.timestamp <= b.previousBootTime.value + BOOT_MARGIN_SECONDS
    ensures
      var incident := Diagnosed(st, b, cfg).incident;
      incident.Some? && incident.value.incidentType == Bsod && incident.value.confidence == High
  {
    assert Between(TransitionStart(b, cfg), b.bootTime + BOOT_MARGIN_SECONDS)(e);
    assert e in TransitionEvents(st.events, b, cfg);
    IncidentIff(st, b, cfg);
    ClassificationTable(st, b, cfg);
  }

  /** Of all stored events, e alone is a blue screen. */
  ghost predicate OnlyBlueScreen(events: seq<EventRow>, e: EventRow) {
    e in events && forall x :: x in events ==> (Classify(x) == BugCheck <==> x == e)
  }

  /** A diagnosis declares the blue screen exactly if its stamp lies in the transition. */
  lemma DeclaredIff(st: Store, b: BootFacts, cfg: Config, e: EventRow)
    requires cfg.interval > 0.0 && OnlyBlueScreen(st.events, e)
    ensures DeclaresBsod(st, b, cfg)
       <==> TransitionStart(b, cfg) <= e.timestamp <= b.bootTime + BOOT_MARGIN_SECONDS
  {
    hide Classify, Diagnosed, Signals;
    IncidentIff(st, b, cfg);
    if Diagnosed(st, b, cfg).incident.Some? {
      ClassificationTable(st, b, cfg);
    }
    BlueScreenSeenIff(st.events, e, TransitionStart(b, cfg), b.bootTime + BOOT_MARGIN_SECONDS);
  }

  lemma BlueScreenSeenIff(events: seq<EventRow>, e: EventRow, start: Time, end: Time)
    requires OnlyBlueScreen(events, e)
    ensures Saw(EventsBetween(events, start, end), BugCheck) <==> start <= e.timestamp <= end
  {
    hide Classify;
    if start <= e.timestamp <= end {
      assert e in EventsBetween(events, start, end);
    }
  }

  predicate DeclaresBsod(st: Store, b: BootFacts, cfg: Config) {
    Diagnosed(st, b, cfg).incident.Some? && Diagnosed(st, b, cfg).incident.value.incidentType == Bsod
  }

  /** The price of the margin: one blue screen makes a BSOD of both the boot it is stamped at and the next one exactly if
      its stamp lies in the margin after the former. */
  lemma BlueScreenDeclaredTwiceIff(st: Store, first: BootFacts, second: BootFacts, cfg: Config, e: EventRow)
    requires cfg.interval > 0.0 && OnlyBlueScreen(st.events, e)
    requires first.previousBootTime.Some? && first.previousBootTime.value <= first.bootTime
    requires second.previousBootTime == Some(first.bootTime) && first.bootTime <= second.bootTime
    ensures DeclaresBsod(st, first, cfg) && DeclaresBsod(st, second, cfg)
       <==> first.bootTime <= e.timestamp <= first.bootTime + BOOT_MARGIN_SECONDS
  {
    hide DeclaresBsod, OnlyBlueScreen;
    DeclaredIff(st, first, cfg, e);
    DeclaredIff(st, second, cfg, e);
  }
}
