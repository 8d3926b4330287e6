/** What decides an event's category: the rule table over provider text, id and message, and the named sources under it. */
module EventKinds {
  import opened Prelude
  import opened Storage
  import opened EventAnalyzer
  import opened ProviderText

  /* ---- text, without regard to case ---- */

  /** The same letter, or the same ASCII letter in the other case. */
  predicate SameLetter(a: char, b: char) {
    || a == b
    || ('A' <= a <= 'Z' && b as int == a as int + 32)
    || ('A' <= b <= 'Z' && a as int == b as int + 32)
  }

  predicate SpelledAt(text: string, needle: string, i: int) {
    0 <= i <= |text| - |needle| && forall j :: 0 <= j < |needle| ==> SameLetter(text[i + j], needle[j])
  }

  /** The needle occurs in the text, in whatever case. */
  ghost predicate Mentions(text: string, needle: string) {
    exists i :: SpelledAt(text, needle, i)
  }

  lemma LowerDecides(a: char, b: char)
    ensures LowerChar(a) == LowerChar(b) <==> SameLetter(a, b)
  {
  }

  lemma SpelledIff(text: string, needle: string, i: nat)
    requires i <= |text|
    ensures OccursAt(Lower(text), Lower(needle), i) <==> SpelledAt(text, needle, i)
  {
    hide LowerChar, SameLetter;
    var low, find := Lower(text), Lower(needle);
    if OccursAt(low, find, i) {
      OccurrenceSpells(low, find, i);
      forall j | 0 <= j < |needle| ensures SameLetter(text[i + j], needle[j]) {
        assert low[i + j] == find[j];
        LowerDecides(text[i + j], needle[j]);
      }
    }
    if SpelledAt(text, needle, i) {
      forall j | 0 <= j < |needle| ensures low[i..][j] == find[j] {
        LowerDecides(text[i + j], needle[j]);
      }
      assert low[i..][..|find|] == find;
    }
  }

  /** A lower-cased search is a search without regard to case. */
  lemma MentionsIff(text: string, needle: string)
    ensures Contains(Lower(text), Lower(needle)) <==> Mentions(text, needle)
  {
    hide Lower, OccursAt, SpelledAt;
    forall i: nat | i <= |text| ensures OccursAt(Lower(text), Lower(needle), i) <==> SpelledAt(text, needle, i) {
      SpelledIff(text, needle, i);
    }
    if Contains(Lower(text), Lower(needle)) {
      var i :| 0 <= i <= |Lower(text)| && OccursAt(Lower(text), Lower(needle), i);
      assert SpelledAt(text, needle, i);
    }
    if i :| SpelledAt(text, needle, i) {
      InRange(text, needle, i);
      assert OccursAt(Lower(text), Lower(needle), i);
    }
  }

  lemma InRange(text: string, needle: string, i: int)
    requires SpelledAt(text, needle, i)
    ensures 0 <= i <= |text|
  {
  }

  lemma LowerOfLower(s: string)
    requires forall i :: 0 <= i < |s| ==> 'a' <= s[i] <= 'z'
    ensures Lower(s) == s
  {
  }

  /* ---- surrounding blanks ---- */

  /** The blanks of ASCII: tab to carriage return, the four separators, and the space. */
  predicate IsSpace(c: char) {
    9 <= c as int <= 13 || 28 <= c as int <= 32
  }

  lemma BlankIsSpace(c: char)
    ensures Blank(c) <==> IsSpace(c)
  {
  }

  /** t is s without the blanks around it. */
  ghost predicate Trims(s: string, t: string) {
    exists i, j :: 0 <= i <= j <= |s| && TrimsAt(s, t, i, j)
  }

  predicate TrimsAt(s: string, t: string, i: int, j: int)
    requires 0 <= i <= j <= |s|
  {
    && t == s[i..j]
    && (forall k :: 0 <= k < i ==> IsSpace(s[k])) && (forall k :: j <= k < |s| ==> IsSpace(s[k]))
    && (t != "" ==> !IsSpace(t[0]) && !IsSpace(t[|t| - 1]))
  }

  lemma {:induction false} StripTrims(s: string)
    ensures Trims(s, Strip(s))
    decreases |s|
  {
    hide IsSpace, Blank;
    if s != "" {
      BlankIsSpace(s[0]);
      BlankIsSpace(s[|s| - 1]);
    }
    if s == "" {
      assert TrimsAt(s, "", 0, 0);
    } else if IsSpace(s[0]) {
      StripTrims(s[1..]);
      var i, j :| 0 <= i <= j <= |s[1..]| && TrimsAt(s[1..], Strip(s), i, j);
      TrimmedInFront(s, Strip(s), i, j);
    } else if IsSpace(s[|s| - 1]) {
      var front := s[..|s| - 1];
      StripTrims(front);
      var i, j :| 0 <= i <= j <= |front| && TrimsAt(front, Strip(s), i, j);
      TrimmedBehind(s, Strip(s), i, j);
    } else {
      assert s[0..|s|] == s;
      assert TrimsAt(s, s, 0, |s|);
    }
  }

  lemma TrimmedInFront(s: string, t: string, i: int, j: int)
    requires s != "" && IsSpace(s[0]) && 0 <= i <= j <= |s| - 1 && TrimsAt(s[1..], t, i, j)
    ensures TrimsAt(s, t, i + 1, j + 1)
  {
    hide IsSpace;
    var tail := s[1..];
    assert tail[i..j] == s[i + 1..j + 1];
    forall k | 0 <= k < i + 1 ensures IsSpace(s[k]) {
      if k > 0 {
        assert tail[k - 1] == s[k];
      }
    }
    forall k | j + 1 <= k < |s| ensures IsSpace(s[k]) {
      assert tail[k - 1] == s[k];
    }
  }

  lemma TrimmedBehind(s: string, t: string, i: int, j: int)
    requires s != "" && IsSpace(s[|s| - 1]) && 0 <= i <= j <= |s| - 1 && TrimsAt(s[..|s| - 1], t, i, j)
    ensures TrimsAt(s, t, i, j)
  {
    hide IsSpace;
    var front := s[..|s| - 1];
    assert front[i..j] == s[i..j];
    forall k | 0 <= k < i ensures IsSpace(s[k]) {
      assert front[k] == s[k];
    }
    forall k | j <= k < |s| ensures IsSpace(s[k]) {
      if k < |front| {
        assert front[k] == s[k];
      }
    }
  }

  lemma TrimIsUnique(s: string, t: string, u: string)
    requires Trims(s, t) && Trims(s, u)
    ensures t == u
  {
    hide IsSpace;
    var i, j :| 0 <= i <= j <= |s| && TrimsAt(s, t, i, j);
    var k, l :| 0 <= k <= l <= |s| && TrimsAt(s, u, k, l);
    if t != "" {
      assert t[0] == s[i] && t[|t| - 1] == s[j - 1];
    }
    if u != "" {
      assert u[0] == s[k] && u[|u| - 1] == s[l - 1];
    }
  }

  /* ---- families ---- */

  ghost predicate NamesPower(p: string) {
    Mentions(p, "Microsoft-Windows-Kernel-Power") || Mentions(p, "Kernel-Power")
  }

  ghost predicate NamesBugCheck(p: string) {
    || Mentions(p, "Microsoft-Windows-WER-SystemErrorReporting") || Mentions(p, "BugCheck")
    || Mentions(p, "Microsoft-Windows-WER-SystemErrorReporting ")
  }

  ghost predicate NamesWhea(p: string) {
    Mentions(p, "Microsoft-Windows-WHEA-Logger") || Mentions(p, "WHEA-Logger") || Mentions(p, "whea")
  }

  ghost predicate NamesDisk(p: string) {
    || Mentions(p, "disk") || Mentions(p, "ntfs") || Mentions(p, "storahci") || Mentions(p, "stornvme")
    || Mentions(p, "iaStor") || Mentions(p, "msahci")
  }

  ghost predicate NamesDisplay(p: string) {
    || Mentions(p, "display") || Mentions(p, "dxgkrnl") || Mentions(p, "nvlddmkm") || Mentions(p, "amdkmdag")
    || Mentions(p, "igfx") || Mentions(p, "igdkmd64") || Mentions(p, "igfxCUIService") || Mentions(p, "aticfx64")
  }

  lemma NamedIff(p: string, f: ProviderFamily)
    ensures ContainsAny(p, f) <==> exists k :: 0 <= k < |Names(f)| && Mentions(p, Names(f)[k])
  {
    hide Names, Mentions, Contains, Lower;
    forall k | 0 <= k < |Names(f)|
      ensures Contains(Lower(p), Lower(Names(f)[k])) <==> Mentions(p, Names(f)[k])
    {
      MentionsIff(p, Names(f)[k]);
    }
  }

  lemma PowerIff(p: string)
    ensures ContainsAny(p, KernelPowerProviders) <==> NamesPower(p)
  {
    hide Mentions, ContainsAny;
    NamedIff(p, KernelPowerProviders);
    var names := Names(KernelPowerProviders);
    assert |names| == 2;
    assert NamesPower(p) <==> Mentions(p, names[0]) || Mentions(p, names[1]);
  }

  lemma BugCheckIff(p: string)
    ensures ContainsAny(p, BugCheckProviders) <==> NamesBugCheck(p)
  {
    hide Mentions, ContainsAny;
    NamedIff(p, BugCheckProviders);
    var names := Names(BugCheckProviders);
    assert |names| == 3;
    assert NamesBugCheck(p) <==> Mentions(p, names[0]) || Mentions(p, names[1]) || Mentions(p, names[2]);
  }

  lemma WheaIff(p: string)
    ensures ContainsAny(p, WheaProviders) || Contains(Lower(p), "whea") <==> NamesWhea(p)
  {
    hide Mentions, ContainsAny, Contains;
    NamedIff(p, WheaProviders);
    LowerOfLower("whea");
    MentionsIff(p, "whea");
    var names := Names(WheaProviders);
    assert |names| == 2;
    assert NamesWhea(p) <==> Mentions(p, names[0]) || Mentions(p, names[1]) || Mentions(p, "whea");
  }

  lemma DiskIff(p: string)
    ensures ContainsAny(p, DiskProviders) <==> NamesDisk(p)
  {
    hide Mentions, ContainsAny;
    NamedIff(p, DiskProviders);
    var names := Names(DiskProviders);
    assert |names| == 6;
    assert NamesDisk(p) <==>
             || Mentions(p, names[0]) || Mentions(p, names[1]) || Mentions(p, names[2])
             || Mentions(p, names[3]) || Mentions(p, names[4]) || Mentions(p, names[5]);
  }

  lemma DisplayIff(p: string)
    ensures ContainsAny(p, DisplayProviders) <==> NamesDisplay(p)
  {
    hide Mentions, ContainsAny;
    NamedIff(p, DisplayProviders);
    var names := Names(DisplayProviders);
    assert |names| == 8;
    assert NamesDisplay(p) <==>
             || Mentions(p, names[0]) || Mentions(p, names[1]) || Mentions(p, names[2]) || Mentions(p, names[3])
             || Mentions(p, names[4]) || Mentions(p, names[5]) || Mentions(p, names[6]) || Mentions(p, names[7]);
  }

  /* ---- the table ---- */

  function Text(s: Option<string>): string {
    if s.Some? then s.value else ""
  }

  /** The event's id, of which only the low 16 bits count. */
  predicate HasId(e: EventRow, id: int) {
    e.eventId.Some? && e.eventId.value % 65536 == id
  }

  predicate HasDiskId(e: EventRow) {
    || HasId(e, 7) || HasId(e, 9) || HasId(e, 11) || HasId(e, 15) || HasId(e, 51) || HasId(e, 52)
    || HasId(e, 55) || HasId(e, 98) || HasId(e, 129) || HasId(e, 140) || HasId(e, 153) || HasId(e, 157)
  }

  ghost predicate IsPower(e: EventRow, p: string) {
    HasId(e, 41) && (NamesPower(p) || p == "EventLog")
  }

  ghost predicate IsBugCheck(e: EventRow, p: string) {
    NamesBugCheck(p) || (HasId(e, 1001) && Mentions(Text(e.message), "bugcheck"))
  }

  /** None of the rules before the disk rule applies. */
  ghost predicate NoneBefore(e: EventRow, p: string) {
    !IsPower(e, p) && !IsBugCheck(e, p) && !NamesWhea(p)
  }

  /** No source decides; the id may. */
  ghost predicate ById(e: EventRow, p: string) {
    NoneBefore(e, p) && !(NamesDisk(p) && HasDiskId(e)) && !NamesDisplay(p)
  }

  lemma DiskIds(e: EventRow)
    ensures (EventId(e.eventId).Some? && IsDiskErrorId(EventId(e.eventId).value)) <==> HasDiskId(e)
  {
  }

  /** The complete table, for every event; p is the provider without the blanks around it. */
  lemma KindTable(e: EventRow, p: string)
    requires Trims(Text(e.provider), p)
    ensures Classify(e) == KernelPower <==> IsPower(e, p)
    ensures Classify(e) == BugCheck <==> !IsPower(e, p) && IsBugCheck(e, p)
    ensures Classify(e) == Whea <==> !IsPower(e, p) && !IsBugCheck(e, p) && NamesWhea(p)
    ensures Classify(e) == DiskError <==> NoneBefore(e, p) && NamesDisk(p) && HasDiskId(e)
    ensures Classify(e) == Display <==> NoneBefore(e, p) && !(NamesDisk(p) && HasDiskId(e)) && NamesDisplay(p)
    ensures Classify(e) == ShutdownClean <==> ById(e, p) && (HasId(e, 6006) || HasId(e, 1074))
    ensures Classify(e) == ShutdownUnexpected <==> ById(e, p) && HasId(e, 6008)
    ensures Classify(e) == ServiceControl <==>
              && ById(e, p) && !HasId(e, 6006) && !HasId(e, 1074) && !HasId(e, 6008)
              && p == "Service Control Manager"
  {
    hide Strip, Trims, ContainsAny, Contains, Lower, Mentions, NamesPower, NamesBugCheck, NamesWhea, NamesDisk,
         NamesDisplay, IsDiskErrorId, HasDiskId;
    StripTrims(Text(e.provider));
    TrimIsUnique(Text(e.provider), p, Strip(Text(e.provider)));
    PowerIff(p);
    BugCheckIff(p);
    WheaIff(p);
    DiskIff(p);
    DisplayIff(p);
    DiskIds(e);
    LowerOfLower("bugcheck");
    MentionsIff(Text(e.message), "bugcheck");
    assert Provider(e) == p;
  }

  /* ---- named sources ---- */

  lemma Untouched(p: string)
    requires p != "" ==> !IsSpace(p[0]) && !IsSpace(p[|p| - 1])
    ensures Trims(p, p)
  {
    assert p[0..|p|] == p;
    assert TrimsAt(p, p, 0, |p|);
  }

  /** A text that lacks a letter mentions nothing that has it. */
  lemma LacksLetter(text: string, c: char, needle: string, o: nat)
    requires o < |needle| && LowerChar(needle[o]) == c && Lacks(Lower(text), c)
    ensures !Mentions(text, needle)
  {
    hide Contains, Mentions, Lacks;
    NotContained(Lower(text), Lower(needle), o);
    MentionsIff(text, needle);
  }

  /** A text without w and b mentions no power, bugcheck or hardware error source. */
  lemma WithoutWB(p: string)
    requires Lacks(Lower(p), 'w') && Lacks(Lower(p), 'b')
    ensures !NamesPower(p) && !NamesBugCheck(p) && !NamesWhea(p)
  {
    hide Mentions, Lacks;
    LacksLetter(p, 'w', "Microsoft-Windows-Kernel-Power", 10);
    LacksLetter(p, 'w', "Kernel-Power", 9);
    LacksLetter(p, 'w', "Microsoft-Windows-WER-SystemErrorReporting", 10);
    LacksLetter(p, 'b', "BugCheck", 0);
    LacksLetter(p, 'w', "Microsoft-Windows-WER-SystemErrorReporting ", 10);
    LacksLetter(p, 'w', "Microsoft-Windows-WHEA-Logger", 10);
    LacksLetter(p, 'w', "WHEA-Logger", 0);
    LacksLetter(p, 'w', "whea", 0);
  }

  /** A text without s mentions no disk driver. */
  lemma WithoutS(p: string)
    requires Lacks(Lower(p), 's')
    ensures !NamesDisk(p)
  {
    hide Mentions, Lacks;
    LacksLetter(p, 's', "disk", 2);
    LacksLetter(p, 's', "ntfs", 3);
    LacksLetter(p, 's', "storahci", 0);
    LacksLetter(p, 's', "stornvme", 0);
    LacksLetter(p, 's', "iaStor", 2);
    LacksLetter(p, 's', "msahci", 1);
  }

  lemma MentionsItself(p: string)
    ensures Mentions(p, p)
  {
    assert SpelledAt(p, p, 0);
  }

  /** A blue screen after all, by its id and message. */
  ghost predicate ByMessage(e: EventRow) {
    HasId(e, 1001) && Mentions(Text(e.message), "bugcheck")
  }

  /** The hardware error loggers: every event, unless its id and message name a blue screen. */
  lemma WheaKind(e: EventRow)
    requires e.provider == Some("Microsoft-Windows-WHEA-Logger") || e.provider == Some("WHEA-Logger")
    ensures Classify(e) == if ByMessage(e) then BugCheck else Whea
  {
    hide Classify, ByMessage, NamesPower, NamesBugCheck, NamesDisk, NamesDisplay;
    var p := e.provider.value;
    WheaText(p);
    Untouched(p);
    KindTable(e, p);
    MentionsItself(p);
    NotPower(e, p);
  }

  lemma NotPower(e: EventRow, p: string)
    requires !NamesPower(p) && !NamesBugCheck(p) && p != "EventLog"
    ensures !IsPower(e, p) && (IsBugCheck(e, p) <==> ByMessage(e))
  {
  }

  lemma WheaText(p: string)
    requires p == "Microsoft-Windows-WHEA-Logger" || p == "WHEA-Logger"
    ensures p != "" && !IsSpace(p[0]) && !IsSpace(p[|p| - 1]) && p != "EventLog"
    ensures !NamesPower(p) && !NamesBugCheck(p)
  {
    hide Mentions;
    WheaLetters(p);
    LacksLetter(p, 'k', "Microsoft-Windows-Kernel-Power", 18);
    LacksLetter(p, 'k', "Kernel-Power", 0);
    LacksLetter(p, 'y', "Microsoft-Windows-WER-SystemErrorReporting", 23);
    LacksLetter(p, 'b', "BugCheck", 0);
    LacksLetter(p, 'y', "Microsoft-Windows-WER-SystemErrorReporting ", 23);
  }

  lemma WheaLetters(p: string)
    requires p == "Microsoft-Windows-WHEA-Logger" || p == "WHEA-Logger"
    ensures Lacks(Lower(p), 'k') && Lacks(Lower(p), 'b') && Lacks(Lower(p), 'y')
  {
    assert |p| == 29 || |p| == 11;
    forall j | 0 <= j < |p| ensures LowerChar(p[j]) != 'k' && LowerChar(p[j]) != 'b' && LowerChar(p[j]) != 'y' {
    }
  }

  predicate IsDiskDriver(p: string) {
    p == "disk" || p == "ntfs" || p == "storahci" || p == "stornvme" || p == "iaStor" || p == "msahci"
  }

  predicate IsDisplayDriver(p: string) {
    || p == "display" || p == "dxgkrnl" || p == "nvlddmkm" || p == "amdkmdag" || p == "igfx" || p == "igdkmd64"
    || p == "igfxCUIService" || p == "aticfx64"
  }

  lemma DriverText(p: string)
    requires IsDiskDriver(p) || IsDisplayDriver(p)
    ensures p != "" && !IsSpace(p[0]) && !IsSpace(p[|p| - 1]) && p != "EventLog"
    ensures Lacks(Lower(p), 'w') && Lacks(Lower(p), 'b')
  {
    assert |p| <= 14 && p[0] != 'E';
    forall j | 0 <= j < |p| ensures LowerChar(p[j]) != 'w' && LowerChar(p[j]) != 'b' {
    }
  }

  /** The disk drivers: a disk error exactly for the twelve ids. */
  lemma DiskKind(e: EventRow)
    requires e.provider.Some? && IsDiskDriver(e.provider.value)
    ensures Classify(e) == DiskError <==> HasDiskId(e)
  {
    hide Classify, Lower, Lacks, Mentions, NamesPower, NamesBugCheck, NamesWhea, NamesDisplay;
    var p := e.provider.value;
    DriverText(p);
    Untouched(p);
    KindTable(e, p);
    MentionsItself(p);
    WithoutWB(p);
    NotPower(e, p);
  }

  lemma DisplayLetters(p: string)
    requires IsDisplayDriver(p)
    ensures if p == "display" || p == "igfxCUIService" then
              Lacks(Lower(p), 'k') && Lacks(Lower(p), 'n') && Lacks(Lower(p), 'o') && Lacks(Lower(p), 'm')
            else Lacks(Lower(p), 's')
  {
    assert |p| <= 14;
    forall j | 0 <= j < |p|
      ensures if p == "display" || p == "igfxCUIService" then
                var c := LowerChar(p[j]);
                c != 'k' && c != 'n' && c != 'o' && c != 'm'
              else LowerChar(p[j]) != 's'
    {
    }
  }

  lemma WithoutKNOM(p: string)
    requires Lacks(Lower(p), 'k') && Lacks(Lower(p), 'n') && Lacks(Lower(p), 'o') && Lacks(Lower(p), 'm')
    ensures !NamesDisk(p)
  {
    hide Mentions, Lacks;
    LacksLetter(p, 'k', "disk", 3);
    LacksLetter(p, 'n', "ntfs", 0);
    LacksLetter(p, 'o', "storahci", 2);
    LacksLetter(p, 'o', "stornvme", 2);
    LacksLetter(p, 'o', "iaStor", 4);
    LacksLetter(p, 'm', "msahci", 0);
  }

  lemma DisplayIsNoDisk(p: string)
    requires IsDisplayDriver(p)
    ensures !NamesDisk(p)
  {
    hide NamesDisk, Lacks, Lower, IsDisplayDriver;
    DisplayLetters(p);
    if p == "display" || p == "igfxCUIService" {
      WithoutKNOM(p);
    } else {
      WithoutS(p);
    }
  }

  /** The display drivers: every event, unless its id and message name a blue screen. */
  lemma DisplayKind(e: EventRow)
    requires e.provider.Some? && IsDisplayDriver(e.provider.value)
    ensures Classify(e) == if ByMessage(e) then BugCheck else Display
  {
    hide Classify, Lower, Lacks, Mentions, NamesPower, NamesBugCheck, NamesWhea, NamesDisk, ByMessage;
    var p := e.provider.value;
    DriverText(p);
    Untouched(p);
    KindTable(e, p);
    MentionsItself(p);
    WithoutWB(p);
    DisplayIsNoDisk(p);
    NotPower(e, p);
  }

  const SERVICE_CONTROL := "Service Control Manager"

  lemma ServiceControlLetters()
    ensures
      var t := Lower(SERVICE_CONTROL);
      Lacks(t, 'w') && Lacks(t, 'b') && Lacks(t, 'd') && Lacks(t, 'f') && Lacks(t, 'h')
    ensures
      var t := Lower(SERVICE_CONTROL);
      forall j :: 0 <= j < |t| - 1 ==> (t[j] == 's' ==> t[j + 1] != 't') && (t[j] == 'i' ==> t[j + 1] != 'a')
    ensures !IsSpace(SERVICE_CONTROL[0]) && !IsSpace(SERVICE_CONTROL[|SERVICE_CONTROL| - 1]) && SERVICE_CONTROL != "EventLog"
  {
    var text := SERVICE_CONTROL;
    assert |text| == 23;
    forall j | 0 <= j < 23
      ensures
        var c := LowerChar(text[j]);
        c != 'w' && c != 'b' && c != 'd' && c != 'f' && c != 'h'
    {
    }
    forall j | 0 <= j < 22
      ensures (LowerChar(text[j]) == 's' ==> LowerChar(text[j + 1]) != 't')
           && (LowerChar(text[j]) == 'i' ==> LowerChar(text[j + 1]) != 'a')
    {
    }
  }

  lemma NoPair(text: string, needle: string)
    requires |needle| >= 2
    requires forall j :: 0 <= j < |text| - 1 && Lower(text)[j] == Lower(needle)[0] ==>
               Lower(text)[j + 1] != Lower(needle)[1]
    ensures !Mentions(text, needle)
  {
    hide Contains, Mentions;
    NotFollowed(Lower(text), Lower(needle));
    MentionsIff(text, needle);
  }

  lemma ServiceControlNames()
    ensures !NamesDisk(SERVICE_CONTROL) && !NamesDisplay(SERVICE_CONTROL)
  {
    hide Mentions, Lacks;
    var p := SERVICE_CONTROL;
    ServiceControlLetters();
    LacksLetter(p, 'd', "disk", 0);
    LacksLetter(p, 'f', "ntfs", 2);
    LacksLetter(p, 'h', "storahci", 5);
    NoPair(p, "stornvme");
    NoPair(p, "iaStor");
    LacksLetter(p, 'h', "msahci", 3);
    LacksLetter(p, 'd', "display", 0);
    LacksLetter(p, 'd', "dxgkrnl", 0);
    LacksLetter(p, 'd', "nvlddmkm", 3);
    LacksLetter(p, 'd', "amdkmdag", 2);
    LacksLetter(p, 'f', "igfx", 2);
    LacksLetter(p, 'd', "igdkmd64", 2);
    LacksLetter(p, 'f', "igfxCUIService", 2);
    LacksLetter(p, 'f', "aticfx64", 4);
  }

  /** The Service Control Manager: service events, except the ids that speak for themselves. */
  lemma ServiceControlKind(e: EventRow)
    requires e.provider == Some("Service Control Manager")
    ensures Classify(e) ==
              if ByMessage(e) then BugCheck
              else if HasId(e, 6006) || HasId(e, 1074) then ShutdownClean
              else if HasId(e, 6008) then ShutdownUnexpected
              else ServiceControl
  {
    hide Classify, Lower, Lacks, Mentions, NamesPower, NamesBugCheck, NamesWhea, NamesDisk, NamesDisplay, ByMessage;
    var p := SERVICE_CONTROL;
    ServiceControlLetters();
    Untouched(p);
    KindTable(e, p);
    WithoutWB(p);
    ServiceControlNames();
    NotPower(e, p);
  }
}
