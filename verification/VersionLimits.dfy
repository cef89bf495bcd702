/** Where the version machine's promises end: runs from an empty volume that a reader would not expect, and when they
    happen. */
module VersionLimits {
  import opened VersionWorld
  import opened VersionHistory
  import opened VersionBoot
  import opened VersionProof
  import opened VersionLife
  import opened VersionProgress

  // ----- runs -------------------------------------------------------------------------------

  /** Nothing fails and nothing is cut. */
  function Plain(): Fate {
    Fate(Nowhere, true, true, false, true, None, false, true, true)
  }

  function Starts(f: Fate): Event {
    Boot(f, Offer(6, 6, 6, false))
  }

  function CutAfter(p: Point): Event {
    Starts(Plain().(cut := p))
  }

  function Asks(q: Request): Event {
    Asked(q, Nowhere)
  }

  /** A run goes on. */
  lemma Then(m: Machine, events: seq<Event>, x: Machine, e: Event, y: Machine)
    requires RunOf(m, events) == x && StepOf(x, e).0 == y
    ensures RunOf(m, events + [e]) == y
  {
    hide StepOf;
    assert (events + [e])[..|events + [e]| - 1] == events;
  }

  /** A boot of an installed version that did not crash often: its configuration, then the start. */
  lemma Straight(m: Machine, f: Fate, o: Offer)
    requires f.cut != Woken && m.saved.Wanted().Some? && m.saved.Wanted().value in m.world.venvs && m.saved.failures < MAX_BOOT_FAILURES
    ensures Wake(m, f).state.Wanted() == m.saved.Wanted()
    ensures BootOf(m, f, o) == var x := Wake(m, f).ApplyConfigChanges(f); if x.ended then (x.Rest(), None) else x.Launch(f)
  {
    hide Work.ApplyConfigChanges, Work.Launch;
  }

  function NoHa(): HaState {
    Fresh.saved
  }

  // 6 is installed first and boots
  function SixStarted(): Machine {
    Machine(NoHa().(desired := Some(6), current := Some(6), proven := NoneYet, failures := 1), World(None, None, None, {6}, map[], 1, None),
            History(None, None, false, Some(6), 0, [Counted]), Some(6), false, false)
  }

  function SixWrote(): Machine {
    SixStarted().(world := SixStarted().world.(haVersion := Some(6), writer := Some(6)), wrote := true)
  }

  function Six(): Machine {
    Machine(SixWrote().saved.(proven := Booted(6), failures := 0), SixWrote().world,
            History(None, None, false, Some(6), 0, [Counted, Good]), Some(6), true, true)
  }

  lemma SixSteps()
    ensures StepOf(Fresh, Starts(Plain())).0 == SixStarted() && StepOf(SixStarted(), Write).0 == SixWrote() && StepOf(SixWrote(), Asks(MarkOk)).0 == Six()
  {
  }

  lemma SixBoots() returns (events: seq<Event>)
    ensures RunOf(Fresh, events) == Six()
  {
    hide StepOf, RunOf;
    SixSteps();
    assert RunOf(Fresh, []) == Fresh by { Nothing(Fresh); }
    Then(Fresh, [], Fresh, Starts(Plain()), SixStarted());
    Then(Fresh, [] + [Starts(Plain())], SixStarted(), Write, SixWrote());
    Then(Fresh, [] + [Starts(Plain())] + [Write], SixWrote(), Asks(MarkOk), Six());
    events := [] + [Starts(Plain())] + [Write] + [Asks(MarkOk)];
  }

  lemma Nothing(m: Machine)
    ensures RunOf(m, []) == m
  {
  }

  // 3 is asked for with a clean start and boots; its plan is not finished
  function ForThree(): Event {
    Asks(ChangeVersion(3, Rebuild, "", "b1"))
  }

  function ThreeAsked(): Machine {
    Six().(saved := Six().saved.(desired := Some(3), change := Some(Change(3, Rebuild, "b1", false, 2, 6))),
         world := Six().world.(plan := Some(Plan(3, Reset, None)), backups := map["b1" := 6], now := 2), told := Six().told.(last := None))
  }

  function ThreeStarted(): Machine {
    Machine(NoHa().(desired := Some(3), current := Some(3), previous := Some(6), proven := Booted(6), failures := 1,
                  change := Some(Change(3, Rebuild, "b1", true, 2, 6))),
            World(None, Some(Plan(3, Importing, Some(6))), Some(6), {6, 3}, map["b1" := 6], 3, None),
            History(None, None, false, Some(3), 0, [Counted, Good, Counted]), Some(3), false, false)
  }

  function ThreeWrote(): Machine {
    ThreeStarted().(world := ThreeStarted().world.(haVersion := Some(3), writer := Some(3)), wrote := true)
  }

  function Three(): Machine {
    Machine(ThreeWrote().saved.(proven := Booted(3), failures := 0, change := None), ThreeWrote().world,
            ThreeWrote().told.(trace := [Counted, Good, Counted, Good]), Some(3), true, true)
  }

  lemma ThreeIsAsked()
    ensures StepOf(Six(), ForThree()).0 == ThreeAsked()
  {
  }

  lemma ThreeStarts()
    ensures StepOf(ThreeAsked(), Starts(Plain())).0 == ThreeStarted()
  {
  }

  lemma ThreeIsGood()
    ensures StepOf(ThreeStarted(), Write).0 == ThreeWrote() && StepOf(ThreeWrote(), Asks(MarkOk)).0 == Three()
  {
  }

  lemma ThreeBoots() returns (events: seq<Event>)
    ensures RunOf(Fresh, events) == Three()
  {
    hide StepOf, RunOf;
    var first := SixBoots();
    ThreeIsAsked();
    ThreeStarts();
    ThreeIsGood();
    Then(Fresh, first, Six(), ForThree(), ThreeAsked());
    Then(Fresh, first + [ForThree()], ThreeAsked(), Starts(Plain()), ThreeStarted());
    Then(Fresh, first + [ForThree()] + [Starts(Plain())], ThreeStarted(), Write, ThreeWrote());
    Then(Fresh, first + [ForThree()] + [Starts(Plain())] + [Write], ThreeWrote(), Asks(MarkOk), Three());
    events := first + [ForThree()] + [Starts(Plain())] + [Write] + [Asks(MarkOk)];
  }

  // 6 is asked for again, the request cut before it drops the clean start; 6 boots and writes
  function ForSix(): Event {
    Asked(ChangeVersion(6, Keep, "", "b2"), DesiredSet)
  }

  function SixAsked(): Machine {
    Machine(Three().saved.(desired := Some(6), change := Some(Change(6, Keep, "b2", false, 4, 3))),
            Three().world.(backups := map["b1" := 6, "b2" := 3], now := 4), Three().told.(last := None), None, false, false)
  }

  function SixBack(): Machine {
    Machine(NoHa().(desired := Some(6), current := Some(6), previous := Some(3), proven := Booted(3), failures := 1,
                  change := Some(Change(6, Keep, "b2", true, 4, 3))),
            SixAsked().world.(now := 5), History(None, None, false, Some(6), 0, [Counted, Good, Counted, Good, Counted]), Some(6), false, false)
  }

  function SixWroteAgain(): Machine {
    SixBack().(world := SixBack().world.(haVersion := Some(6), writer := Some(6)), wrote := true)
  }

  lemma SixIsAskedAgain()
    ensures StepOf(Three(), ForSix()).0 == SixAsked()
  {
  }

  lemma SixStartsAgain()
    ensures StepOf(SixAsked(), Starts(Plain())).0 == SixBack()
  {
  }

  lemma SixWritesAgain()
    ensures StepOf(SixBack(), Write).0 == SixWroteAgain()
  {
  }

  lemma SixBootsAgain() returns (events: seq<Event>)
    ensures RunOf(Fresh, events) == SixWroteAgain()
  {
    hide StepOf, RunOf;
    var three := ThreeBoots();
    SixIsAskedAgain();
    SixStartsAgain();
    SixWritesAgain();
    Then(Fresh, three, Three(), ForSix(), SixAsked());
    Then(Fresh, three + [ForSix()], SixAsked(), Starts(Plain()), SixBack());
    Then(Fresh, three + [ForSix()] + [Starts(Plain())], SixBack(), Write, SixWroteAgain());
    events := three + [ForSix()] + [Starts(Plain())] + [Write];
  }

  // ----- a clean start that was not finished --------------------------------------------------

  // 7 is asked for, and cannot be installed: 6 goes on, and nothing is left of the change to it
  function ForSeven(): Event {
    Asked(ChangeVersion(7, Keep, "", "b3"), DesiredSet)
  }

  function SevenAsked(): Machine {
    Machine(SixBack().saved.(desired := Some(7), change := Some(Change(7, Keep, "b3", false, 6, 6))),
            SixWroteAgain().world.(backups := map["b1" := 6, "b2" := 3, "b3" := 6], now := 6), SixBack().told.(last := None), None, false, false)
  }

  function NoInstall(): Event {
    Starts(Plain().(installs := false))
  }

  function SixStays(): Machine {
    Machine(SixBack().saved.(failures := 2, change := None), SevenAsked().world.(now := 7),
            History(None, None, false, Some(6), 0, SixBack().told.trace + [Counted]), Some(6), false, false)
  }

  lemma SevenIsAsked()
    ensures StepOf(SixWroteAgain(), ForSeven()).0 == SevenAsked()
  {
  }

  lemma SevenIsNotInstalled()
    ensures StepOf(SevenAsked(), NoInstall()).0 == SixStays()
  {
  }

  lemma SixGoesOn() returns (events: seq<Event>)
    ensures RunOf(Fresh, events) == SixStays()
  {
    hide StepOf, RunOf;
    var six := SixBootsAgain();
    SevenIsAsked();
    SevenIsNotInstalled();
    Then(Fresh, six, SixWroteAgain(), ForSeven(), SevenAsked());
    Then(Fresh, six + [ForSeven()], SevenAsked(), NoInstall(), SixStays());
    events := six + [ForSeven()] + [NoInstall()];
  }

  // 6 crashes a third time and is left for 3
  function SixThird(): Machine {
    SixStays().(saved := SixStays().saved.(failures := 3), world := SixStays().world.(now := 8), told := SixStays().told.Tried())
  }

  function SixLeft(): Machine {
    Machine(SixStays().saved.(desired := Some(3), fallbackFrom := Some(6), failures := 0), SixStays().world.(now := 9),
            SixThird().told.(trace := SixThird().told.trace + [VersionHistory.Decided]), None, false, false)
  }

  lemma SixCrashes()
    ensures StepOf(SixStays(), Starts(Plain())).0 == SixThird()
  {
  }

  lemma SixIsLeft()
    ensures StepOf(SixThird(), CutAfter(FallbackSaved)).0 == SixLeft()
  {
  }

  lemma ThreeStartsOnSix()
    ensures var start := StepOf(SixLeft(), Starts(Plain())).1;
            start.Some? && start.value.version == 3 && start.value.world.writer == Some(6) && !start.value.Kept() && start.value.world.Unfinished(3)
  {
  }

  /** A clean start for 3 was not finished when 6 was asked for again, and the request was cut before it dropped the clean
      start. Once 6 crashed three times, 3 takes the guard's exception for an emptied .storage: it starts on what 6 wrote,
      although keeping that was never asked for. */
  lemma UnfinishedCleanStart() returns (events: seq<Event>)
    ensures var start := StepOf(RunOf(Fresh, events), Starts(Plain())).1;
            start.Some? && start.value.version == 3 && start.value.world.writer == Some(6) && !start.value.Kept() && start.value.world.Unfinished(3)
  {
    hide StepOf, RunOf;
    var six := SixGoesOn();
    SixCrashes();
    SixIsLeft();
    Then(Fresh, six, SixStays(), Starts(Plain()), SixThird());
    Then(Fresh, six + [Starts(Plain())], SixThird(), CutAfter(FallbackSaved), SixLeft());
    ThreeStartsOnSix();
    events := six + [Starts(Plain())] + [CutAfter(FallbackSaved)];
  }

  // ----- ... and why the files do not tell ------------------------------------------------------

  function ByHandCut(): Event {
    Asked(RestoreByHand("b2", true), RestoreScheduled)
  }

  function OfThree(): Schedule {
    Schedule("b2", None, true, false, None)
  }

  function Came(): LastRestore {
    LastRestore(true, "b2", None, true, 9)
  }

  function SixWritesOn(): Machine {
    SixStays().(wrote := true)
  }

  lemma SixWritesToo()
    ensures StepOf(SixStays(), Write).0 == SixWritesOn()
  {
  }

  lemma SixKeepsRunning() returns (events: seq<Event>)
    ensures RunOf(Fresh, events) == SixWritesOn()
  {
    hide StepOf, RunOf;
    var six := SixGoesOn();
    SixWritesToo();
    Then(Fresh, six, SixStays(), Write, SixWritesOn());
    events := six + [Write];
  }

  // a configuration of 3 comes back while 6 goes on, and 6 writes over it before it is left
  function HandWaits(): Machine {
    Machine(SixStays().saved, SixStays().world.(schedule := Some(OfThree())), SixStays().told, None, false, false)
  }

  function HandWaitsOn(): Machine {
    HandWaits().(world := HandWaits().world.(now := 8))
  }

  function CameForSix(): Machine {
    HandWaits().(saved := HandWaits().saved.(last := Some(Came())), world := SixStays().world.(now := 9, writer := Some(3)))
  }

  function SixOnThree(): Machine {
    Machine(CameForSix().saved.(failures := 3), CameForSix().world.(now := 10), SixStays().told.Tried(), Some(6), false, false)
  }

  function SixWroteOver(): Machine {
    SixOnThree().(world := SixOnThree().world.(writer := Some(6)), wrote := true)
  }

  function LeftOnSix(): Machine {
    Machine(SixOnThree().saved.(desired := Some(3), fallbackFrom := Some(6), failures := 0), SixWroteOver().world.(now := 11),
            SixOnThree().told.(trace := SixOnThree().told.trace + [VersionHistory.Decided]), None, false, false)
  }

  lemma HandIsScheduled()
    ensures StepOf(SixWritesOn(), ByHandCut()).0 == HandWaits() && StepOf(HandWaits(), CutAfter(Woken)).0 == HandWaitsOn()
  {
  }

  lemma HandCameForSix()
    ensures StepOf(HandWaitsOn(), CutAfter(ScheduleRemoved)).0 == CameForSix()
  {
    hide BootOf, Work.Launch;
    Straight(HandWaitsOn().Down(), Plain().(cut := ScheduleRemoved), Offer(6, 6, 6, false));
  }

  lemma SixStartsOnThree()
    ensures StepOf(CameForSix(), Starts(Plain())).0 == SixOnThree()
  {
  }

  lemma SixWritesOver()
    ensures StepOf(SixOnThree(), Write).0 == SixWroteOver()
  {
  }

  lemma SixIsLeftAgain()
    ensures StepOf(SixWroteOver(), CutAfter(FallbackSaved)).0 == LeftOnSix()
  {
  }

  lemma NewerConfiguration() returns (events: seq<Event>)
    ensures RunOf(Fresh, events) == LeftOnSix()
  {
    hide StepOf, RunOf;
    var six := SixKeepsRunning();
    HandIsScheduled();
    HandCameForSix();
    SixStartsOnThree();
    SixWritesOver();
    SixIsLeftAgain();
    Then(Fresh, six, SixWritesOn(), ByHandCut(), HandWaits());
    Then(Fresh, six + [ByHandCut()], HandWaits(), CutAfter(Woken), HandWaitsOn());
    var cut := six + [ByHandCut()] + [CutAfter(Woken)];
    Then(Fresh, cut, HandWaitsOn(), CutAfter(ScheduleRemoved), CameForSix());
    Then(Fresh, cut + [CutAfter(ScheduleRemoved)], CameForSix(), Starts(Plain()), SixOnThree());
    Then(Fresh, cut + [CutAfter(ScheduleRemoved)] + [Starts(Plain())], SixOnThree(), Write, SixWroteOver());
    Then(Fresh, cut + [CutAfter(ScheduleRemoved)] + [Starts(Plain())] + [Write], SixWroteOver(), CutAfter(FallbackSaved), LeftOnSix());
    events := cut + [CutAfter(ScheduleRemoved)] + [Starts(Plain())] + [Write] + [CutAfter(FallbackSaved)];
  }

  // the same configuration comes back once 6 is left
  function SixThirdWrote(): Machine {
    SixThird().(wrote := true)
  }

  function HandWaitsLate(): Machine {
    Machine(SixThird().saved, SixThird().world.(schedule := Some(OfThree())), SixThird().told, None, false, false)
  }

  function CameForThree(): Machine {
    Machine(LeftOnSix().saved, SixThird().world.(now := 9, writer := Some(3)), SixThird().told.(trace := SixThird().told.trace + [VersionHistory.Decided]),
            None, false, false)
  }

  function LeftOnThree(): Machine {
    CameForThree().(world := CameForThree().world.(now := 11))
  }

  lemma HandIsScheduledLate()
    ensures StepOf(SixThird(), Write).0 == SixThirdWrote() && StepOf(SixThirdWrote(), ByHandCut()).0 == HandWaitsLate()
  {
  }

  function ThreeDecided(): Work {
    var s := LeftOnSix().saved.(last := None);
    Work(s, s, HandWaitsLate().world.(now := 9), CameForThree().told, None, 3, true, false, false)
  }

  lemma CounterDecides(f: Fate)
    requires f == Plain().(cut := ScheduleRemoved)
    ensures Wake(HandWaitsLate(), f).CrashFallback(f) == ThreeDecided() && !Wake(HandWaitsLate(), f).ended
  {
  }

  lemma HandIsApplied(f: Fate)
    requires f == Plain().(cut := ScheduleRemoved)
    ensures ThreeDecided().Install(f) == ThreeDecided()
    ensures ThreeDecided().ApplyConfigChanges(f).ended && ThreeDecided().ApplyConfigChanges(f).Rest() == CameForThree()
  {
  }

  lemma HandCameForThree()
    ensures StepOf(HandWaitsLate(), CutAfter(ScheduleRemoved)).0 == CameForThree()
  {
    hide Work.CrashFallback, Work.Install, Work.ApplyConfigChanges, Work.Rest;
    CounterDecides(Plain().(cut := ScheduleRemoved));
    HandIsApplied(Plain().(cut := ScheduleRemoved));
  }

  lemma TwoBootsEndEarly()
    ensures StepOf(CameForThree(), CutAfter(Woken)).0 == CameForThree().(world := CameForThree().world.(now := 10))
    ensures StepOf(CameForThree().(world := CameForThree().world.(now := 10)), CutAfter(Woken)).0 == LeftOnThree()
  {
  }

  lemma OlderConfiguration() returns (events: seq<Event>)
    ensures RunOf(Fresh, events) == LeftOnThree()
  {
    hide StepOf, RunOf;
    var six := SixGoesOn();
    SixCrashes();
    HandIsScheduledLate();
    HandCameForThree();
    TwoBootsEndEarly();
    Then(Fresh, six, SixStays(), Starts(Plain()), SixThird());
    Then(Fresh, six + [Starts(Plain())], SixThird(), Write, SixThirdWrote());
    Then(Fresh, six + [Starts(Plain())] + [Write], SixThirdWrote(), ByHandCut(), HandWaitsLate());
    var late := six + [Starts(Plain())] + [Write] + [ByHandCut()];
    var between := CameForThree().(world := CameForThree().world.(now := 10));
    Then(Fresh, late, HandWaitsLate(), CutAfter(ScheduleRemoved), CameForThree());
    Then(Fresh, late + [CutAfter(ScheduleRemoved)], CameForThree(), CutAfter(Woken), between);
    Then(Fresh, late + [CutAfter(ScheduleRemoved)] + [CutAfter(Woken)], between, CutAfter(Woken), LeftOnThree());
    events := late + [CutAfter(ScheduleRemoved)] + [CutAfter(Woken)] + [CutAfter(Woken)];
  }

  /** ha.json and the files are the same; 6 wrote the one .storage, 3 the other. */
  predicate AlikeButTheWriter(x: Machine, y: Machine) {
    x.saved == y.saved && x.world == y.world.(writer := x.world.writer) && x.world.writer == Some(6) && y.world.writer == Some(3)
  }

  predicate StartsThree(m: Machine) {
    var start := StepOf(m, Starts(Plain())).1;
    start.Some? && start.value.version == 3
  }

  lemma ThreeStartsOn(m: Machine)
    requires m == LeftOnSix() || m == LeftOnThree()
    ensures StartsThree(m)
  {
    hide BootOf;
    Straight(m.Down(), Plain(), Offer(6, 6, 6, false));
  }

  /** No condition on the files says exactly when that happens: two runs end with the same ha.json and the same files, and
      start 3, one on a .storage that 6 wrote and one on a .storage of 3. */
  lemma FilesDoNotTell() returns (a: seq<Event>, b: seq<Event>)
    ensures AlikeButTheWriter(RunOf(Fresh, a), RunOf(Fresh, b))
    ensures StartsThree(RunOf(Fresh, a)) && StartsThree(RunOf(Fresh, b))
  {
    hide StepOf, RunOf, StartsThree;
    a := NewerConfiguration();
    b := OlderConfiguration();
    ThreeStartsOn(LeftOnSix());
    ThreeStartsOn(LeftOnThree());
  }

  // ----- a switch back to a newer version ---------------------------------------------------------

  // 3 is asked for on 6 with the configuration kept, and boots well
  function ForKept(): Event {
    Asks(ChangeVersion(3, Keep, "", "b1"))
  }

  function KeptAsked(): Machine {
    Six().(saved := Six().saved.(desired := Some(3), change := Some(Change(3, Keep, "b1", false, 2, 6))),
         world := Six().world.(backups := map["b1" := 6], now := 2), told := Six().told.(last := None))
  }

  function KeptStarted(): Machine {
    Machine(NoHa().(desired := Some(3), current := Some(3), previous := Some(6), proven := Booted(6), failures := 1,
                  change := Some(Change(3, Keep, "b1", true, 2, 6))),
            World(None, None, Some(6), {6, 3}, map["b1" := 6], 3, Some(6)),
            History(None, None, false, Some(3), 0, [Counted, Good, Counted]), Some(3), false, false)
  }

  function KeptWrote(): Machine {
    KeptStarted().(world := KeptStarted().world.(haVersion := Some(3), writer := Some(3)), wrote := true)
  }

  function KeptJudged(): Machine {
    KeptWrote().(saved := KeptWrote().saved.(smoke := Some(Smoke(3, 6))))
  }

  function KeptGood(): Machine {
    Machine(KeptJudged().saved.(proven := Booted(3), failures := 0, change := None), KeptWrote().world,
            KeptWrote().told.(trace := [Counted, Good, Counted, Good]), Some(3), true, true)
  }

  lemma KeptIsAsked()
    ensures StepOf(Six(), ForKept()).0 == KeptAsked()
  {
  }

  lemma KeptStarts()
    ensures StepOf(KeptAsked(), Starts(Plain())).0 == KeptStarted()
  {
  }

  lemma KeptIsGood()
    ensures StepOf(KeptStarted(), Write).0 == KeptWrote() && StepOf(KeptWrote(), Asks(StartSmoke)).0 == KeptJudged()
    ensures StepOf(KeptJudged(), Asks(MarkOk)).0 == KeptGood()
  {
  }

  lemma KeptBoots() returns (events: seq<Event>)
    ensures RunOf(Fresh, events) == KeptGood()
  {
    hide StepOf, RunOf;
    var six := SixBoots();
    KeptIsAsked();
    KeptStarts();
    KeptIsGood();
    Then(Fresh, six, Six(), ForKept(), KeptAsked());
    Then(Fresh, six + [ForKept()], KeptAsked(), Starts(Plain()), KeptStarted());
    var kept := six + [ForKept()] + [Starts(Plain())];
    Then(Fresh, kept, KeptStarted(), Write, KeptWrote());
    Then(Fresh, kept + [Write], KeptWrote(), Asks(StartSmoke), KeptJudged());
    Then(Fresh, kept + [Write] + [Asks(StartSmoke)], KeptJudged(), Asks(MarkOk), KeptGood());
    events := kept + [Write] + [Asks(StartSmoke)] + [Asks(MarkOk)];
  }

  // 3 does not set the integration up: back to 6; a backup of 6 is restored by hand instead, and the boot that applied it is cut
  function BackToSix(): Event {
    Asks(SwitchBack("m"))
  }

  function NewByHand(): Event {
    Asks(RestoreByHand("b1", true))
  }

  function BackWaits(): Machine {
    KeptGood().(saved := KeptGood().saved.(desired := Some(6), fallbackFrom := Some(3), recovery := Some(Recovery("m", 3, 6, 4)), smoke := None),
                world := World(Some(Own("m", 6)), None, Some(3), {6, 3}, map["b1" := 6, "m" := 6], 4, Some(3)),
                told := KeptGood().told.(owed := Some(Recovery("m", 3, 6, 4)), last := None))
  }

  function NewWaits(): Machine {
    BackWaits().(world := BackWaits().world.(schedule := Some(Schedule("b1", None, true, false, None))))
  }

  function NewCame(): Machine {
    Machine(NewWaits().saved.(last := Some(LastRestore(true, "b1", None, true, 5))), NewWaits().world.(schedule := None, now := 5, writer := Some(6)),
            NewWaits().told, None, false, false)
  }

  lemma BackIsSwitched()
    ensures StepOf(KeptGood(), BackToSix()).0 == BackWaits()
  {
  }

  lemma NewIsScheduled()
    ensures StepOf(BackWaits(), NewByHand()).0 == NewWaits()
  {
  }

  lemma NewComes()
    ensures StepOf(NewWaits(), CutAfter(ScheduleRemoved)).0 == NewCame()
  {
    hide BootOf, Work.Launch;
    Straight(NewWaits().Down(), Plain().(cut := ScheduleRemoved), Offer(6, 6, 6, false));
  }

  lemma NewConfigurationComes() returns (events: seq<Event>)
    ensures RunOf(Fresh, events) == NewCame()
  {
    hide StepOf, RunOf;
    var three := KeptBoots();
    BackIsSwitched();
    NewIsScheduled();
    NewComes();
    Then(Fresh, three, KeptGood(), BackToSix(), BackWaits());
    Then(Fresh, three + [BackToSix()], BackWaits(), NewByHand(), NewWaits());
    Then(Fresh, three + [BackToSix()] + [NewByHand()], NewWaits(), CutAfter(ScheduleRemoved), NewCame());
    events := three + [BackToSix()] + [NewByHand()] + [CutAfter(ScheduleRemoved)];
  }

  function ThreeOnNew(): Machine {
    Machine(NewCame().saved.(desired := Some(3), failures := 1), NewCame().world.(now := 6),
            NewCame().told.(last := Some(3), trace := NewCame().told.trace + [Counted]), Some(3), false, false)
  }

  lemma ThreeStartsOnNew()
    ensures StepOf(NewCame(), Starts(Plain())).0 == ThreeOnNew()
    ensures StepOf(NewCame(), Starts(Plain())).1.Some? && !StepOf(NewCame(), Starts(Plain())).1.value.Kept()
    ensures NewCame().world.Stray(NewCame().saved, 3)
  {
  }

  /** A switch back to 6 waits when a backup of 6 is restored by hand, and the boot is cut once that is recorded. For the
      next one the fallback's restore never came, and 3 stays, which starts on a .storage of 6. */
  lemma StrayConfiguration() returns (events: seq<Event>)
    ensures var start := StepOf(RunOf(Fresh, events), Starts(Plain())).1;
            start.Some? && start.value.version == 3 && start.value.world.writer == Some(6) && !start.value.Kept()
  {
    hide RunOf;
    events := NewConfigurationComes();
    ThreeStartsOnNew();
    StartSees(NewCame(), Plain(), Offer(6, 6, 6, false));
  }

  /** A start tells of the .storage and the version it is about. */
  lemma StartSees(m: Machine, f: Fate, o: Offer)
    ensures var (r, start) := BootOf(m, f, o);
            (start.Some? <==> r.up.Some?) && (start.Some? ==> start.value.world.writer == r.world.writer && Some(start.value.version) == r.up)
  {
    hide Prepare;
  }

  /** Once 3 has run, the files are the same, and .storage is its own. */
  lemma StrayFilesDoNotTell() returns (a: seq<Event>, b: seq<Event>)
    ensures AlikeButTheWriter(RunOf(Fresh, a), RunOf(Fresh, b))
    ensures RunOf(Fresh, a).world.Stray(RunOf(Fresh, a).saved, 3) && RunOf(Fresh, a).saved.Wanted() == Some(3)
  {
    hide StepOf, RunOf, Prepare;
    var came := NewConfigurationComes();
    ThreeStartsOnNew();
    Then(Fresh, came, NewCame(), Starts(Plain()), ThreeOnNew());
    var started := came + [Starts(Plain())];
    ThreeEnds();
    Then(Fresh, started, ThreeOnNew(), Crash, ThreeOnNew().Down());
    Then(Fresh, started, ThreeOnNew(), Write, WroteOf(ThreeOnNew()));
    Then(Fresh, started + [Write], WroteOf(ThreeOnNew()), Crash, WroteOf(ThreeOnNew()).Down());
    a := started + [Crash];
    b := started + [Write] + [Crash];
  }

  lemma ThreeEnds()
    ensures StepOf(ThreeOnNew(), Crash).0 == ThreeOnNew().Down()
    ensures StepOf(ThreeOnNew(), Write).0 == WroteOf(ThreeOnNew())
    ensures StepOf(WroteOf(ThreeOnNew()), Crash).0 == WroteOf(ThreeOnNew()).Down()
  {
  }

  // ----- a restore by hand in place of the fallback's -------------------------------------------------

  // 6 boots well, is judged against 3 and given up
  function SixJudged(): Machine {
    SixWroteAgain().(saved := SixWroteAgain().saved.(smoke := Some(Smoke(6, 3))))
  }

  function SixGood(): Machine {
    Machine(SixJudged().saved.(proven := Booted(6), failures := 0, change := None), SixWroteAgain().world,
            SixWroteAgain().told.(trace := SixWroteAgain().told.trace + [Good]), Some(6), true, true)
  }

  function BackToThree(): Event {
    Asks(SwitchBack("m"))
  }

  function ThreeWaits(): Machine {
    SixGood().(saved := SixGood().saved.(desired := Some(3), fallbackFrom := Some(6), recovery := Some(Recovery("m", 6, 3, 6)), smoke := None),
               world := SixGood().world.(schedule := Some(Own("m", 3)), backups := map["b1" := 6, "b2" := 3, "m" := 3], now := 6),
               told := SixGood().told.(owed := Some(Recovery("m", 6, 3, 6)), last := None))
  }

  lemma SixIsGood()
    ensures StepOf(SixWroteAgain(), Asks(StartSmoke)).0 == SixJudged() && StepOf(SixJudged(), Asks(MarkOk)).0 == SixGood()
  {
  }

  lemma ThreeIsSwitchedTo()
    ensures StepOf(SixGood(), BackToThree()).0 == ThreeWaits()
  {
  }

  lemma ThreeIsWaitedFor() returns (events: seq<Event>)
    ensures RunOf(Fresh, events) == ThreeWaits()
  {
    hide StepOf, RunOf;
    var six := SixBootsAgain();
    SixIsGood();
    ThreeIsSwitchedTo();
    Then(Fresh, six, SixWroteAgain(), Asks(StartSmoke), SixJudged());
    Then(Fresh, six + [Asks(StartSmoke)], SixJudged(), Asks(MarkOk), SixGood());
    Then(Fresh, six + [Asks(StartSmoke)] + [Asks(MarkOk)], SixGood(), BackToThree(), ThreeWaits());
    events := six + [Asks(StartSmoke)] + [Asks(MarkOk)] + [BackToThree()];
  }

  function OldByHand(): Event {
    Asks(RestoreByHand("b2", true))
  }

  function OldWaits(): Machine {
    ThreeWaits().(world := ThreeWaits().world.(schedule := Some(OfThree()), plan := None))
  }

  lemma OldIsScheduled()
    ensures StepOf(ThreeWaits(), OldByHand()).0 == OldWaits()
  {
  }

  function OldCame(): Work {
    var s := OldWaits().saved.(last := Some(LastRestore(true, "b2", None, true, 7)));
    Work(s, s.(recovery := None), OldWaits().world.(schedule := None, now := 7, writer := Some(3)), OldWaits().told, Some(3), 0, false, true, false)
  }

  lemma OldComes()
    ensures Wake(OldWaits().Down(), Plain()).ApplyConfigChanges(Plain()) == OldCame()
  {
  }

  lemma OldIsLaunched()
    ensures OldCame().Launch(Plain()).0.up == Some(3)
  {
  }

  lemma ThreeStartsOnOld()
    ensures StepOf(OldWaits(), Starts(Plain())).0.up == Some(3)
  {
    hide BootOf, Work.Launch, Work.ApplyConfigChanges;
    OldComes();
    OldIsLaunched();
    Straight(OldWaits().Down(), Plain(), Offer(6, 6, 6, false));
  }

  lemma NotItsOwn()
    ensures OldWaits().saved.recovery == Some(Recovery("m", 6, 3, 6)) && OldWaits().saved.Wanted() == Some(3) && !OldWaits().saved.AppliedBefore()
    ensures OldWaits().world.schedule == Some(OfThree()) && !History.Pays(OfThree(), Recovery("m", 6, 3, 6))
  {
  }

  /** A switch back to 3 waits for its restart, and its restore is replaced by one made by hand: the boot takes that one for
      the fallback's own, whose configuration does not come back. ``VersionLife.WhoseRestoreCompletes`` says exactly when. */
  lemma HandRestoreStandsIn() returns (events: seq<Event>)
    ensures var start := StepOf(RunOf(Fresh, events), Starts(Plain())).1;
            start.Some? && start.value.version == 3 && start.value.history.paid == Some(3) && !start.value.history.own
  {
    hide RunOf, Prepare, OldWaits;
    var three := ThreeIsWaitedFor();
    OldIsScheduled();
    Then(Fresh, three, ThreeWaits(), OldByHand(), OldWaits());
    events := three + [OldByHand()];
    FreshIsAlive();
    RunHolds(Fresh, events);
    ThreeStartsOnOld();
    NotItsOwn();
    StartSees(OldWaits().Down(), Plain(), Offer(6, 6, 6, false));
    WhoseRestoreCompletes(OldWaits().Down(), Plain(), Offer(6, 6, 6, false));
  }

  // ----- a fallback that came back and is refused -------------------------------------------------------

  function ThreeRecorded(): Machine {
    Machine(NoHa().(desired := Some(3), current := Some(3), proven := Booted(6), fallbackFrom := Some(6),
                    last := Some(LastRestore(true, "m", Some(3), true, 7))),
            ThreeWaits().world.(schedule := None, plan := None, now := 7, writer := Some(3)),
            ThreeWaits().told.(owed := None, paid := Some(3), own := true), None, false, false)
  }

  function OwnCame(): Work {
    var s := ThreeWaits().saved.(last := Some(LastRestore(true, "m", Some(3), true, 7)));
    Work(s, s.(recovery := None), ThreeRecorded().world, ThreeRecorded().told, Some(3), 0, false, true, false)
  }

  lemma OwnComes(f: Fate)
    requires f == Plain().(cut := BootRecorded)
    ensures Wake(ThreeWaits().Down(), f).ApplyConfigChanges(f) == OwnCame()
  {
  }

  lemma OwnIsRecorded(f: Fate)
    requires f == Plain().(cut := BootRecorded)
    ensures OwnCame().Launch(f).0 == ThreeRecorded()
  {
  }

  lemma ThreeIsRecorded()
    ensures StepOf(ThreeWaits(), CutAfter(BootRecorded)).0 == ThreeRecorded()
  {
    hide BootOf, Work.Launch, Work.ApplyConfigChanges;
    OwnComes(Plain().(cut := BootRecorded));
    OwnIsRecorded(Plain().(cut := BootRecorded));
    Straight(ThreeWaits().Down(), Plain().(cut := BootRecorded), Offer(6, 6, 6, false));
  }

  lemma ThreeIsRefused()
    ensures StepOf(ThreeRecorded(), Starts(Plain())).1.None?
  {
  }

  /** A fallback's configuration came back and its boot was recorded, but cut before Home Assistant wrote .HA_VERSION: that
      still names the version that was left, so no later boot starts the version the configuration belongs to. */
  lemma CameBackButRefused() returns (events: seq<Event>)
    ensures var m := RunOf(Fresh, events);
            m.told.paid == Some(3) && m.told.own && m.world.writer == Some(3) && StepOf(m, Starts(Plain())).1.None?
  {
    hide StepOf, RunOf;
    var three := ThreeIsWaitedFor();
    ThreeIsRecorded();
    Then(Fresh, three, ThreeWaits(), CutAfter(BootRecorded), ThreeRecorded());
    ThreeIsRefused();
    events := three + [CutAfter(BootRecorded)];
  }

  /** The boot empties .storage for ``w``, or an earlier one did. */
  predicate CleanStartWaits(p: Option<Plan>, f: Fate, w: Version) {
    p.Some? && p.value.to == w && (p.value.stage == Importing || (!f.sourceGone && (p.value.stage == Renaming || f.setsAside)))
  }

  /** Once it came back and that was recorded, a fallback's version is started if and only if .HA_VERSION is not newer or a
      clean start for it waits. */
  lemma CameBackStarts(m: Machine, f: Fate, o: Offer)
    requires Verdict(m.world, m.told, m.saved) == Consistent && m.told.paid.Some? && m.saved.recovery.None? && m.world.schedule.None?
    requires f.cut == Nowhere
    ensures var w := m.told.paid.value;
            BootOf(m, f, o).1.Some? <==> !Refuses(w, m.world.haVersion, m.saved.Seeded().proven, None, false) || CleanStartWaits(m.world.plan, f, w)
  {
    hide World.Holds, History.Agrees, HaState.Leaves, Work.Launch, Work.ApplyConfigChanges;
    var w := m.told.paid.value;
    PaidIsWanted(m);
    var a := Wake(m, f);
    PaidIsKept(m, f);
    var b := a.CrashFallback(f);
    assert b.state == a.state && b.world == a.world && b.configFor.None? && !b.restored && !b.ended;
    assert b.Install(f) == b;
    OnlyThePlan(b, f);
    GuardDecides(b.ApplyConfigChanges(f), f);
  }

  lemma PaidIsWanted(m: Machine)
    requires Verdict(m.world, m.told, m.saved) == Consistent && m.told.paid.Some?
    ensures m.saved.Wanted() == m.told.paid && m.told.paid.value in m.world.venvs && m.saved.change.None?
    ensures m.saved.fallbackFrom.Some? && m.saved.fallbackFrom != m.told.paid
  {
  }

  lemma PaidIsKept(m: Machine, f: Fate)
    requires m.saved.fallbackFrom.Some? && m.saved.fallbackFrom != m.saved.Wanted() && m.saved.Wanted().Some? && m.saved.recovery.None?
    ensures var a := Wake(m, f);
            a.state.Wanted() == m.saved.Wanted() && a.state.recovery.None? && a.state.change == m.saved.change &&
            !a.state.Leaves(m.saved.Wanted().value, a.world.venvs)
  {
  }

  /** With nothing scheduled, no fallback and no change, only the plan matters. */
  lemma OnlyThePlan(x: Work, f: Fate)
    requires x.state.Wanted().Some? && x.world.schedule.None? && x.state.recovery.None? && x.state.change.None?
    requires x.configFor.None? && !x.restored && !x.ended && f.cut == Nowhere
    ensures var y := x.ApplyConfigChanges(f);
            && !y.ended && y.state == x.state && y.world.haVersion == x.world.haVersion
            && y.configFor == if CleanStartWaits(x.world.plan, f, x.state.Wanted().value) then x.state.Wanted() else None
  {
    assert x.ApplyRestore(f) == x && !x.Missed() && x.SettleRecovery() == x;
  }

  lemma GuardDecides(x: Work, f: Fate)
    requires x.state.Wanted().Some? && x.state.change.None? && f.cut == Nowhere
    ensures x.Launch(f).1.None? <==> Refuses(x.state.Wanted().value, x.world.haVersion, x.state.proven, x.configFor, false)
  {
  }

  // ----- the crashes of the version before ----------------------------------------------------------------

  // 7 crashes twice, runs once more, and 8 is asked for
  function SevenNext(): Event {
    Asks(ChangeVersion(7, Keep, "", "c1"))
  }

  function EightNext(): Event {
    Asks(ChangeVersion(8, Keep, "", "c2"))
  }

  function SevenNextAsked(): Machine {
    Six().(saved := Six().saved.(desired := Some(7), change := Some(Change(7, Keep, "c1", false, 2, 6))),
           world := Six().world.(backups := map["c1" := 6], now := 2), told := Six().told.(last := None))
  }

  function SevenTries(n: nat): Machine {
    Machine(NoHa().(desired := Some(7), current := Some(7), previous := Some(6), proven := Booted(6), failures := n + 1,
                    change := Some(Change(7, Keep, "c1", true, 2, 6))),
            World(None, None, Some(6), {6, 7}, map["c1" := 6], n + 3, Some(6)),
            History(None, None, false, Some(7), 0, [Counted, Good] + seq(n + 1, i => Counted)), Some(7), false, false)
  }

  function SevenWrote(): Machine {
    SevenTries(2).(world := SevenTries(2).world.(haVersion := Some(7), writer := Some(7)), wrote := true)
  }

  function EightNextAsked(): Machine {
    SevenWrote().(saved := SevenWrote().saved.(desired := Some(8), change := Some(Change(8, Keep, "c2", false, 6, 7))),
                  world := SevenWrote().world.(backups := map["c1" := 6, "c2" := 7], now := 6), told := SevenWrote().told.(last := None))
  }

  lemma SevenIsNext()
    ensures StepOf(Six(), SevenNext()).0 == SevenNextAsked()
  {
  }

  lemma SevenStarts()
    ensures StepOf(SevenNextAsked(), Starts(Plain())).0 == SevenTries(0)
  {
    assert [Counted, Good] + [Counted] == SevenTries(0).told.trace;
  }

  lemma SevenStartsAgain(n: nat)
    requires n < 2
    ensures StepOf(SevenTries(n), Starts(Plain())).0 == SevenTries(n + 1)
  {
    assert SevenTries(n).told.trace + [Counted] == SevenTries(n + 1).told.trace;
  }

  lemma EightIsNext()
    ensures StepOf(SevenTries(2), Write).0 == SevenWrote() && StepOf(SevenWrote(), EightNext()).0 == EightNextAsked()
  {
  }

  lemma EightIsLeft()
    ensures var m := StepOf(EightNextAsked(), Starts(Plain())).0;
            m.saved.fallbackFrom == Some(8) && m.saved.desired == Some(6) && 8 !in m.world.venvs
    ensures StepOf(EightNextAsked(), Starts(Plain())).1.None?
  {
  }

  lemma SevenCrashes() returns (events: seq<Event>)
    ensures RunOf(Fresh, events) == SevenWrote()
  {
    hide StepOf, RunOf;
    var six := SixBoots();
    SevenIsNext();
    SevenStarts();
    SevenStartsAgain(0);
    SevenStartsAgain(1);
    EightIsNext();
    Then(Fresh, six, Six(), SevenNext(), SevenNextAsked());
    Then(Fresh, six + [SevenNext()], SevenNextAsked(), Starts(Plain()), SevenTries(0));
    var seven := six + [SevenNext()] + [Starts(Plain())];
    Then(Fresh, seven, SevenTries(0), Starts(Plain()), SevenTries(1));
    Then(Fresh, seven + [Starts(Plain())], SevenTries(1), Starts(Plain()), SevenTries(2));
    Then(Fresh, seven + [Starts(Plain())] + [Starts(Plain())], SevenTries(2), Write, SevenWrote());
    events := seven + [Starts(Plain())] + [Starts(Plain())] + [Write];
  }

  /** As it should be: 7, which replaced the configuration of 6 and crashes three times, is left for 6 with that configuration. */
  lemma LeftAsItShouldBe() returns (events: seq<Event>)
    ensures RunOf(Fresh, events).world.writer == Some(7) && RunOf(Fresh, events).saved.desired == Some(7)
    ensures var start := StepOf(RunOf(Fresh, events), Starts(Plain())).1;
            start.Some? && start.value.version == 6 && start.value.ha.fallbackFrom == Some(7) && start.value.world.writer == Some(6)
  {
    hide RunOf, BootOf;
    events := SevenCrashes();
    FallbackComes(SevenWrote().Down(), Plain(), Offer(6, 6, 6, false));
  }

  /** The boots that failed before a version was asked for are charged to it: 8 is left for 6 without having been installed,
      and 6 is refused on what 7 wrote. */
  lemma ChargedToTheNext() returns (events: seq<Event>)
    ensures var x := RunOf(Fresh, events);
            && x.saved.desired == Some(8) && x.saved.change.Some? && !x.saved.change.value.applied
            && var (m, start) := StepOf(x, Starts(Plain()));
               m.saved.fallbackFrom == Some(8) && m.saved.desired == Some(6) && 8 !in m.world.venvs && start.None?
  {
    hide StepOf, RunOf;
    var seven := SevenCrashes();
    EightIsNext();
    EightIsLeft();
    Then(Fresh, seven, SevenWrote(), EightNext(), EightNextAsked());
    events := seven + [EightNext()];
  }
}
