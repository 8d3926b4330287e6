/** How the providers and ids of the simulated events are classified. */
module ProviderText {
  import opened Prelude
  import opened Storage
  import opened EventAnalyzer

  predicate Lacks(text: string, c: char) {
    forall j :: 0 <= j < |text| ==> text[j] != c
  }

  lemma OccurrenceSpells(text: string, needle: string, i: nat)
    requires OccursAt(text, needle, i)
    ensures i + |needle| <= |text| && forall o :: 0 <= o < |needle| ==> text[i + o] == needle[o]
  {
    forall o | 0 <= o < |needle| ensures text[i + o] == needle[o] {
      assert text[i..][o] == needle[o];
    }
  }

  /** A needle with a character the text lacks, or longer than the text, does not occur in it. */
  lemma NotContained(text: string, needle: string, o: nat)
    requires |needle| > |text| || (o < |needle| && Lacks(text, needle[o]))
    ensures !Contains(text, needle)
  {
    forall i | 0 <= i <= |text| ensures !OccursAt(text, needle, i) {
      if OccursAt(text, needle, i) {
        OccurrenceSpells(text, needle, i);
        assert false;
      }
    }
  }

  lemma ContainsItself(text: string)
    ensures Contains(text, text)
  {
    assert text[0..] == text;
    assert OccursAt(text, text, 0);
  }

  lemma NameMatches(f: ProviderFamily, k: nat)
    requires k < |Names(f)|
    ensures ContainsAny(Names(f)[k], f)
  {
    ContainsItself(Lower(Names(f)[k]));
  }

  lemma EventLogText()
    ensures
      var t := Lower("EventLog");
      |t| == 8 && Lacks(t, 'd') && Lacks(t, 'x') && Lacks(t, 'b') && Lacks(t, 'w')
  {
  }

  lemma User32Text()
    ensures
      var t := Lower("User32");
      |t| == 6 && Lacks(t, 'x') && Lacks(t, 'w')
  {
  }

  lemma KernelPowerLacks(c: char)
    requires c == 'a' || c == 'x' || c == 'v' || c == 'g' || c == 'b' || c == 'h'
    ensures |Lower("Microsoft-Windows-Kernel-Power")| == 30 && Lacks(Lower("Microsoft-Windows-Kernel-Power"), c)
  {
    var text := "Microsoft-Windows-Kernel-Power";
    assert |text| == 30;
    forall j | 0 <= j < 30 ensures LowerChar(text[j]) != c {
    }
  }

  lemma EventLogIsNotBugCheck()
    ensures !ContainsAny("EventLog", BugCheckProviders)
  {
    var text := Lower("EventLog");
    EventLogText();
    NotContained(text, Lower(Names(BugCheckProviders)[0]), 0);
    NotContained(text, Lower(Names(BugCheckProviders)[1]), 0);
    NotContained(text, Lower(Names(BugCheckProviders)[2]), 0);
    assert |Names(BugCheckProviders)| == 3;
  }

  lemma EventLogIsNotWhea()
    ensures !ContainsAny("EventLog", WheaProviders)
  {
    var text := Lower("EventLog");
    EventLogText();
    NotContained(text, Lower(Names(WheaProviders)[0]), 0);
    NotContained(text, Lower(Names(WheaProviders)[1]), 0);
    assert |Names(WheaProviders)| == 2;
  }

  lemma EventLogIsNotDisplay()
    ensures !ContainsAny("EventLog", DisplayProviders)
  {
    var text := Lower("EventLog");
    EventLogText();
    NotContained(text, Lower(Names(DisplayProviders)[0]), 0);
    NotContained(text, Lower(Names(DisplayProviders)[1]), 0);
    NotContained(text, Lower(Names(DisplayProviders)[2]), 3);
    NotContained(text, Lower(Names(DisplayProviders)[3]), 2);
    NotContained(text, Lower(Names(DisplayProviders)[4]), 3);
    NotContained(text, Lower(Names(DisplayProviders)[5]), 2);
    NotContained(text, Lower(Names(DisplayProviders)[6]), 0);
    NotContained(text, Lower(Names(DisplayProviders)[7]), 5);
    assert |Names(DisplayProviders)| == 8;
  }

  lemma EventLogHasNoWhea()
    ensures !Contains(Lower("EventLog"), "whea")
  {
    EventLogText();
    NotContained(Lower("EventLog"), "whea", 0);
  }

  lemma User32IsNotBugCheck()
    ensures !ContainsAny("User32", BugCheckProviders)
  {
    var text := Lower("User32");
    User32Text();
    NotContained(text, Lower(Names(BugCheckProviders)[0]), 0);
    NotContained(text, Lower(Names(BugCheckProviders)[1]), 0);
    NotContained(text, Lower(Names(BugCheckProviders)[2]), 0);
    assert |Names(BugCheckProviders)| == 3;
  }

  lemma User32IsNotWhea()
    ensures !ContainsAny("User32", WheaProviders)
  {
    var text := Lower("User32");
    User32Text();
    NotContained(text, Lower(Names(WheaProviders)[0]), 0);
    NotContained(text, Lower(Names(WheaProviders)[1]), 0);
    assert |Names(WheaProviders)| == 2;
  }

  lemma User32IsNotDisplay()
    ensures !ContainsAny("User32", DisplayProviders)
  {
    var text := Lower("User32");
    User32Text();
    NotContained(text, Lower(Names(DisplayProviders)[0]), 0);
    NotContained(text, Lower(Names(DisplayProviders)[1]), 0);
    NotContained(text, Lower(Names(DisplayProviders)[2]), 0);
    NotContained(text, Lower(Names(DisplayProviders)[3]), 0);
    NotContained(text, Lower(Names(DisplayProviders)[4]), 3);
    NotContained(text, Lower(Names(DisplayProviders)[5]), 0);
    NotContained(text, Lower(Names(DisplayProviders)[6]), 0);
    NotContained(text, Lower(Names(DisplayProviders)[7]), 0);
    assert |Names(DisplayProviders)| == 8;
  }

  lemma User32HasNoWhea()
    ensures !Contains(Lower("User32"), "whea")
  {
    User32Text();
    NotContained(Lower("User32"), "whea", 0);
  }

  lemma KernelPowerIsNotBugCheck()
    ensures !ContainsAny("Microsoft-Windows-Kernel-Power", BugCheckProviders)
  {
    var text := Lower("Microsoft-Windows-Kernel-Power");
    NotContained(text, Lower(Names(BugCheckProviders)[0]), 0);
    KernelPowerLacks('b');
    NotContained(text, Lower(Names(BugCheckProviders)[1]), 0);
    NotContained(text, Lower(Names(BugCheckProviders)[2]), 0);
    assert |Names(BugCheckProviders)| == 3;
  }

  lemma KernelPowerIsNotWhea()
    ensures !ContainsAny("Microsoft-Windows-Kernel-Power", WheaProviders)
  {
    var text := Lower("Microsoft-Windows-Kernel-Power");
    KernelPowerLacks('h');
    NotContained(text, Lower(Names(WheaProviders)[0]), 19);
    KernelPowerLacks('h');
    NotContained(text, Lower(Names(WheaProviders)[1]), 1);
    assert |Names(WheaProviders)| == 2;
  }

  lemma KernelPowerIsNotDisplay()
    ensures !ContainsAny("Microsoft-Windows-Kernel-Power", DisplayProviders)
  {
    var text := Lower("Microsoft-Windows-Kernel-Power");
    KernelPowerLacks('a');
    NotContained(text, Lower(Names(DisplayProviders)[0]), 5);
    KernelPowerLacks('x');
    NotContained(text, Lower(Names(DisplayProviders)[1]), 1);
    KernelPowerLacks('v');
    NotContained(text, Lower(Names(DisplayProviders)[2]), 1);
    KernelPowerLacks('a');
    NotContained(text, Lower(Names(DisplayProviders)[3]), 0);
    KernelPowerLacks('g');
    NotContained(text, Lower(Names(DisplayProviders)[4]), 1);
    KernelPowerLacks('g');
    NotContained(text, Lower(Names(DisplayProviders)[5]), 1);
    KernelPowerLacks('g');
    NotContained(text, Lower(Names(DisplayProviders)[6]), 1);
    KernelPowerLacks('a');
    NotContained(text, Lower(Names(DisplayProviders)[7]), 0);
    assert |Names(DisplayProviders)| == 8;
  }

  lemma KernelPowerHasNoWhea()
    ensures !Contains(Lower("Microsoft-Windows-Kernel-Power"), "whea")
  {
    KernelPowerLacks('h');
    NotContained(Lower("Microsoft-Windows-Kernel-Power"), "whea", 1);
  }

  /** A needle whose second character never follows its first in the text does not occur in it. */
  lemma NotFollowed(text: string, needle: string)
    requires |needle| >= 2
    requires forall j :: 0 <= j < |text| - 1 && text[j] == needle[0] ==> text[j + 1] != needle[1]
    ensures !Contains(text, needle)
  {
    forall i | 0 <= i <= |text| ensures !OccursAt(text, needle, i) {
      if OccursAt(text, needle, i) {
        OccurrenceStarts(text, needle, i);
        assert false;
      }
    }
  }

  lemma OccurrenceStarts(text: string, needle: string, i: nat)
    requires OccursAt(text, needle, i) && |needle| >= 2
    ensures i + 1 < |text| && text[i] == needle[0] && text[i + 1] == needle[1]
  {
    OccurrenceSpells(text, needle, i);
    assert text[i + 0] == needle[0];
  }

  lemma EventLogIsNotDisk()
    ensures !ContainsAny("EventLog", DiskProviders)
  {
    var text := Lower("EventLog");
    EventLogText();
    EventLogLacks();
    NotContained(text, Lower(Names(DiskProviders)[0]), 0);
    NotContained(text, Lower(Names(DiskProviders)[1]), 2);
    NotContained(text, Lower(Names(DiskProviders)[2]), 0);
    NotContained(text, Lower(Names(DiskProviders)[3]), 0);
    NotContained(text, Lower(Names(DiskProviders)[4]), 1);
    NotContained(text, Lower(Names(DiskProviders)[5]), 0);
    assert |Names(DiskProviders)| == 6;
  }

  lemma EventLogLacks()
    ensures
      var t := Lower("EventLog");
      Lacks(t, 'f') && Lacks(t, 's') && Lacks(t, 'a') && Lacks(t, 'm')
  {
  }

  /** In "microsoft-windows-kernel-power", d is followed by o only, and n by d, e, - only. */
  lemma KernelPowerPairs()
    ensures
      var t := Lower("Microsoft-Windows-Kernel-Power");
      forall j :: 0 <= j < |t| - 1 ==> (t[j] == 'd' ==> t[j + 1] != 'i') && (t[j] == 'n' ==> t[j + 1] != 't')
  {
    var text := "Microsoft-Windows-Kernel-Power";
    assert |text| == 30;
    forall j | 0 <= j < 29
      ensures (LowerChar(text[j]) == 'd' ==> LowerChar(text[j + 1]) != 'i')
           && (LowerChar(text[j]) == 'n' ==> LowerChar(text[j + 1]) != 't')
    {
    }
  }

  lemma KernelPowerIsNotDisk()
    ensures !ContainsAny("Microsoft-Windows-Kernel-Power", DiskProviders)
  {
    var text := Lower("Microsoft-Windows-Kernel-Power");
    KernelPowerPairs();
    NotFollowed(text, Lower(Names(DiskProviders)[0]));
    NotFollowed(text, Lower(Names(DiskProviders)[1]));
    KernelPowerLacks('a');
    NotContained(text, Lower(Names(DiskProviders)[2]), 4);
    KernelPowerLacks('v');
    NotContained(text, Lower(Names(DiskProviders)[3]), 5);
    KernelPowerLacks('a');
    NotContained(text, Lower(Names(DiskProviders)[4]), 1);
    KernelPowerLacks('a');
    NotContained(text, Lower(Names(DiskProviders)[5]), 2);
    assert |Names(DiskProviders)| == 6;
  }

  lemma User32IsNotDisk()
    ensures !ContainsAny("User32", DiskProviders)
  {
    var text := Lower("User32");
    User32Lacks();
    NotContained(text, Lower(Names(DiskProviders)[0]), 0);
    NotContained(text, Lower(Names(DiskProviders)[1]), 0);
    NotContained(text, Lower(Names(DiskProviders)[2]), 0);
    NotContained(text, Lower(Names(DiskProviders)[3]), 1);
    NotContained(text, Lower(Names(DiskProviders)[4]), 1);
    NotContained(text, Lower(Names(DiskProviders)[5]), 0);
    assert |Names(DiskProviders)| == 6;
  }

  lemma User32Lacks()
    ensures
      var t := Lower("User32");
      |t| == 6 && Lacks(t, 'd') && Lacks(t, 'n') && Lacks(t, 't') && Lacks(t, 'a') && Lacks(t, 'm') && Lacks(t, 'k')
  {
  }

  lemma User32IsNotKernelPower()
    ensures !ContainsAny("User32", KernelPowerProviders)
  {
    var text := Lower("User32");
    User32Lacks();
    NotContained(text, Lower(Names(KernelPowerProviders)[0]), 0);
    NotContained(text, Lower(Names(KernelPowerProviders)[1]), 0);
    assert |Names(KernelPowerProviders)| == 2;
  }

  /* ---- classification ---- */

  lemma StripNothing(s: string)
    requires s != "" && !Blank(s[0]) && !Blank(s[|s| - 1])
    ensures Strip(s) == s
  {
  }

  /** The category an id alone decides, once the provider is of no family. */
  function KindOfId(id: int, message: string): Category {
    if id == 1001 && Contains(message, "bugcheck") then BugCheck
    else if id == 6006 || id == 1074 then ShutdownClean
    else if id == 6008 then ShutdownUnexpected
    else Other
  }

  /** A provider that names no family but possibly a power one: 41 is the power signal, other ids speak for themselves. */
  lemma PlainKind(e: EventRow, provider: string, powerful: bool)
    requires e.provider == Some(provider) && e.eventId.Some? && Strip(provider) == provider
    requires powerful == (ContainsAny(provider, KernelPowerProviders) || provider == EventLogProvider())
    requires !ContainsAny(provider, BugCheckProviders) && !ContainsAny(provider, WheaProviders)
    requires !Contains(Lower(provider), "whea") && !ContainsAny(provider, DiskProviders)
    requires !ContainsAny(provider, DisplayProviders) && provider != ServiceControlProvider()
    ensures
      var id := e.eventId.value % 0x1_0000;
      Classify(e) == if id == 41 && powerful then KernelPower else KindOfId(id, Message(e))
  {
    hide ContainsAny, Contains, Message, Lower, Strip, ServiceControlProvider, EventLogProvider;
  }

  /** What the Event Log service writes, for every id. */
  lemma EventLogKind(e: EventRow)
    requires e.provider == Some("EventLog") && e.eventId.Some?
    ensures
      var id := e.eventId.value % 0x1_0000;
      Classify(e) == if id == 41 then KernelPower else KindOfId(id, Message(e))
  {
    StripNothing("EventLog");
    EventLogIsNotBugCheck();
    EventLogIsNotWhea();
    EventLogHasNoWhea();
    EventLogIsNotDisk();
    EventLogIsNotDisplay();
    NotServiceControl("EventLog");
    hide ContainsAny, Contains, Lower, Strip, Classify, Message, KindOfId;
    PlainKind(e, "EventLog", true);
  }

  lemma NotServiceControl(provider: string)
    requires |provider| < 23 || |provider| > 23
    ensures provider != ServiceControlProvider()
  {
    assert |ServiceControlProvider()| == 23;
  }

  /** What User32 writes, for every id: requested shutdowns are 1074, and 41 means nothing there. */
  lemma User32Kind(e: EventRow)
    requires e.provider == Some("User32") && e.eventId.Some?
    ensures Classify(e) == KindOfId(e.eventId.value % 0x1_0000, Message(e))
  {
    StripNothing("User32");
    User32IsNotBugCheck();
    User32IsNotWhea();
    User32HasNoWhea();
    User32IsNotDisk();
    User32IsNotDisplay();
    User32IsNotKernelPower();
    NotServiceControl("User32");
    assert "User32" != EventLogProvider() by {
      assert |EventLogProvider()| == 8;
    }
    hide ContainsAny, Contains, Lower, Strip, Classify, Message, KindOfId;
    PlainKind(e, "User32", false);
  }

  /** Kernel-Power, for every id: 41 is the power signal, and only the shutdown ids and a 1001 whose message names a
      bugcheck mean anything else. */
  lemma KernelPowerKind(e: EventRow)
    requires e.provider == Some("Microsoft-Windows-Kernel-Power") && e.eventId.Some?
    ensures
      var id := e.eventId.value % 0x1_0000;
      Classify(e) == if id == 41 then KernelPower else KindOfId(id, Message(e))
  {
    StripNothing("Microsoft-Windows-Kernel-Power");
    NameMatches(KernelPowerProviders, 0);
    KernelPowerIsNotBugCheck();
    KernelPowerIsNotWhea();
    KernelPowerHasNoWhea();
    KernelPowerIsNotDisk();
    KernelPowerIsNotDisplay();
    KernelPowerLacks('a');
    NotServiceControl("Microsoft-Windows-Kernel-Power");
    hide ContainsAny, Contains, Lower, Strip, Classify, Message, KindOfId;
    PlainKind(e, "Microsoft-Windows-Kernel-Power", true);
  }

  lemma BugCheckIsNotKernelPower()
    ensures !ContainsAny("BugCheck", KernelPowerProviders) && "BugCheck" != EventLogProvider()
  {
    var text := Lower("BugCheck");
    assert |text| == 8;
    NotContained(text, Lower(Names(KernelPowerProviders)[0]), 0);
    NotContained(text, Lower(Names(KernelPowerProviders)[1]), 0);
    assert |Names(KernelPowerProviders)| == 2;
    assert EventLogProvider()[0] == 'E';
  }

  /** What the BugCheck source writes is a blue screen, whatever its id. */
  lemma BugCheckKind(e: EventRow)
    requires e.provider == Some("BugCheck")
    ensures Classify(e) == BugCheck
  {
    StripNothing("BugCheck");
    NameMatches(BugCheckProviders, 1);
    BugCheckIsNotKernelPower();
    hide ContainsAny, Contains, Lower, Strip, Message;
  }
}
