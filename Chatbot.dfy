/** The health chatbot: a keyword dispatch over the lower-cased message, the
    daily and weekly goal lists, the progress analysis and the motivational
    quotes. The entries it reads are parameters: `latest` is the user's most
    recent entry and `recent` the entries of the analysed days. Goals and
    analysis sentences are constructors, one per sentence the chatbot can say;
    the numbers they carry are the values the sentences print. */
module Chatbot {
  import opened Base

  /** The four readings of an entry that the chatbot looks at. */
  datatype Metrics = Metrics(runningMileage: real, sleepHours: real, waterIntake: real, screenTime: real)

  /** What a goal or a sentence is about. */
  datatype Topic = Running | Sleep | Water | Screen | Logging

  // ---------------------------------------------------------------- counting by topic

  /** How many of `xs` are about topic `t`. */
  function CountOf<T>(xs: seq<T>, topic: T -> Topic, t: Topic): (n: nat)
    ensures n <= |xs|
    decreases |xs|
  {
    if xs == [] then 0
    else CountOf(xs[..|xs| - 1], topic, t) + (if topic(xs[|xs| - 1]) == t then 1 else 0)
  }

  lemma {:induction false} CountOfAppend<T>(a: seq<T>, b: seq<T>, topic: T -> Topic, t: Topic)
    ensures CountOf(a + b, topic, t) == CountOf(a, topic, t) + CountOf(b, topic, t)
    decreases |b|
  {
    if b == [] {
      assert a + b == a;
    } else {
      assert (a + b)[..|a + b| - 1] == a + b[..|b| - 1];
      CountOfAppend(a, b[..|b| - 1], topic, t);
    }
  }

  /** The count of a list of at most one item. */
  function AtMostOne<T>(s: seq<T>, topic: T -> Topic, t: Topic): nat {
    if s != [] && topic(s[0]) == t then 1 else 0
  }

  lemma CountOfUpToOne<T>(s: seq<T>, topic: T -> Topic, t: Topic)
    requires |s| <= 1
    ensures CountOf(s, topic, t) == AtMostOne(s, topic, t)
  {
    if s != [] {
      assert s[..0] == [];
    }
  }

  /** How often a topic occurs in four parts of at most one item each. */
  lemma CountOfParts<T>(p0: seq<T>, p1: seq<T>, p2: seq<T>, p3: seq<T>, topic: T -> Topic, t: Topic)
    requires |p0| <= 1 && |p1| <= 1 && |p2| <= 1 && |p3| <= 1
    ensures CountOf(p0 + p1 + p2 + p3, topic, t)
         == AtMostOne(p0, topic, t) + AtMostOne(p1, topic, t) + AtMostOne(p2, topic, t) + AtMostOne(p3, topic, t)
  {
    CountOfAppend(p0, p1, topic, t);
    CountOfAppend(p0 + p1, p2, topic, t);
    CountOfAppend(p0 + p1 + p2, p3, topic, t);
    CountOfUpToOne(p0, topic, t);
    CountOfUpToOne(p1, topic, t);
    CountOfUpToOne(p2, topic, t);
    CountOfUpToOne(p3, topic, t);
  }

  // ---------------------------------------------------------------- motivation

  const Quotes: seq<string> := [
    "Every step forward is progress, no matter how small.",
    "Your only competition is yourself yesterday.",
    "Success is built one habit at a time.",
    "Small daily improvements lead to stunning results.",
    "The journey of a thousand miles begins with a single step.",
    "You don't have to be extreme, just consistent.",
    "Progress takes patience and persistence.",
    "Focus on the progress, not the perfection.",
    "Every day is a new opportunity to improve.",
    "Your future self will thank you for the efforts you make today."
  ]

  /** `random.choice` over the quotes; `roll` stands for the random draw. */
  function Motivation(roll: nat): (q: string)
    ensures q in Quotes
    ensures exists i :: 0 <= i < |Quotes| && q == Quotes[i]
  {
    Quotes[roll % |Quotes|]
  }

  // ---------------------------------------------------------------- daily goals

  datatype DailyGoal =
    | RunThreeMiles               // aim to run at least 3 miles today
    | MatchLastRun(miles: real)   // maintain or exceed the last run
    | SleepTonight                // 7-8 hours of sleep tonight
    | DrinkToday                  // at least 2000ml of water today
    | CutScreenTime               // screen time under 4 hours
    | StartRunning                // defaults for a user without entries
    | GetSleep
    | DrinkWater
    | KeepScreenLow

  function GoalTopic(g: DailyGoal): Topic {
    match g
    case RunThreeMiles | MatchLastRun(_) | StartRunning => Running
    case SleepTonight | GetSleep => Sleep
    case DrinkToday | DrinkWater => Water
    case CutScreenTime | KeepScreenLow => Screen
  }

  const DefaultDailyGoals: seq<DailyGoal> := [StartRunning, GetSleep, DrinkWater, KeepScreenLow]

  /** The goals for a latest entry, as the four checks append them: the
      running goal, then at most one goal each on sleep, water and screen time. */
  function DailyParts(e: Metrics): seq<seq<DailyGoal>> {
    [[if e.runningMileage < 3.0 then RunThreeMiles else MatchLastRun(e.runningMileage)],
     if e.sleepHours < 7.0 then [SleepTonight] else [],
     if e.waterIntake < 2000.0 then [DrinkToday] else [],
     if e.screenTime > 4.0 then [CutScreenTime] else []]
  }

  /** The goals `generate_daily_goals` lists for a user whose latest entry
      is `latest`: 1 to 4 of them, and the default goals appear exactly when
      there is no entry, never mixed with goals drawn from one. */
  function DailyGoals(latest: Option<Metrics>): (r: seq<DailyGoal>)
    ensures 1 <= |r| <= 4
    ensures forall i :: 0 <= i < |r| ==> (r[i] in DefaultDailyGoals <==> latest.None?)
  {
    match latest
    case None => DefaultDailyGoals
    case Some(e) =>
      var p := DailyParts(e);
      p[0] + p[1] + p[2] + p[3]
  }

  /** Without entries the four default goals come back, one per topic. */
  lemma DailyGoalsWithoutEntries()
    ensures DailyGoals(None) == [StartRunning, GetSleep, DrinkWater, KeepScreenLow]
    ensures forall i :: 0 <= i < 4 ==> GoalTopic(DailyGoals(None)[i]) == [Running, Sleep, Water, Screen][i]
  {
  }

  lemma DailyGoalsIsParts(e: Metrics)
    ensures var p := DailyParts(e);
      && DailyGoals(Some(e)) == p[0] + p[1] + p[2] + p[3]
      && |p[0]| == 1 && |p[1]| <= 1 && |p[2]| <= 1 && |p[3]| <= 1
  {
  }

  /** With a latest entry the running goal comes first: 3 miles when the last
      run was under 3, otherwise the last run's distance. There are 1 to 4
      goals. */
  lemma DailyGoalsRunningFirst(e: Metrics)
    ensures var gs := DailyGoals(Some(e));
      && 1 <= |gs| <= 4
      && GoalTopic(gs[0]) == Running
      && (e.runningMileage < 3.0 ==> gs[0] == RunThreeMiles)
      && (e.runningMileage >= 3.0 ==> gs[0] == MatchLastRun(e.runningMileage))
  {
    DailyGoalsIsParts(e);
  }

  /** With a latest entry there is exactly one running goal. */
  lemma DailyGoalsOneRunningGoal(e: Metrics)
    ensures CountOf(DailyGoals(Some(e)), GoalTopic, Running) == 1
  {
    var p := DailyParts(e);
    DailyGoalsIsParts(e);
    CountOfParts(p[0], p[1], p[2], p[3], GoalTopic, Running);
    assert AtMostOne(p[0], GoalTopic, Running) == 1;
    assert AtMostOne(p[1], GoalTopic, Running) == 0;
    assert AtMostOne(p[2], GoalTopic, Running) == 0;
    assert AtMostOne(p[3], GoalTopic, Running) == 0;
  }

  /** With a latest entry, a sleep goal appears exactly when sleep is below 7
      hours, a water goal exactly when water is below 2000, and a screen goal
      exactly when screen time is above 4 hours. */
  lemma DailyGoalsThresholds(e: Metrics)
    ensures SleepTonight in DailyGoals(Some(e)) <==> e.sleepHours < 7.0
    ensures DrinkToday in DailyGoals(Some(e)) <==> e.waterIntake < 2000.0
    ensures CutScreenTime in DailyGoals(Some(e)) <==> e.screenTime > 4.0
  {
    var p := DailyParts(e);
    assert DailyGoals(Some(e)) == p[0] + p[1] + p[2] + p[3];
  }

  /** `generate_daily_goals`: the list is built by appending, one check at a time. */
  method GenerateDailyGoals(latest: Option<Metrics>) returns (goals: seq<DailyGoal>)
    ensures goals == DailyGoals(latest)
  {
    goals := [];
    if latest.Some? {
      var e := latest.value;
      if e.runningMileage < 3.0 {
        goals := goals + [RunThreeMiles];
      } else {
        goals := goals + [MatchLastRun(e.runningMileage)];
      }
      if e.sleepHours < 7.0 {
        goals := goals + [SleepTonight];
      }
      if e.waterIntake < 2000.0 {
        goals := goals + [DrinkToday];
      }
      if e.screenTime > 4.0 {
        goals := goals + [CutScreenTime];
      }
    } else {
      goals := DefaultDailyGoals;
    }
  }

  // ---------------------------------------------------------------- sums over entries

  datatype Reading = Mileage | SleepHours | WaterIntake | ScreenTime

  function Read(m: Metrics, f: Reading): real {
    match f
    case Mileage => m.runningMileage
    case SleepHours => m.sleepHours
    case WaterIntake => m.waterIntake
    case ScreenTime => m.screenTime
  }

  /** `sum(entry.<reading> for entry in entries)`. */
  function Total(es: seq<Metrics>, f: Reading): real
    decreases |es|
  {
    if es == [] then 0.0 else Total(es[..|es| - 1], f) + Read(es[|es| - 1], f)
  }

  /** A reading that never goes below `lo` sums to at least `lo` per entry. */
  lemma {:induction false} TotalAtLeast(es: seq<Metrics>, f: Reading, lo: real)
    requires forall i :: 0 <= i < |es| ==> lo <= Read(es[i], f)
    ensures lo * |es| as real <= Total(es, f)
    decreases |es|
  {
    if es != [] {
      TotalAtLeast(es[..|es| - 1], f, lo);
    }
  }

  function Average(es: seq<Metrics>, f: Reading): real
    requires es != []
  {
    Total(es, f) / |es| as real
  }

  function Max(a: real, b: real): (m: real)
    ensures m >= a && m >= b && (m == a || m == b)
  {
    if a >= b then a else b
  }

  // ---------------------------------------------------------------- weekly goals

  datatype WeeklyGoal =
    | RunTotal(miles: real)         // run a total of this many miles
    | SleepAverage(hours: real)     // keep an average of this many hours of sleep
    | WaterFiveDays                 // hit the water goal at least 5 days
    | TwoLowScreenDays              // 2 days under 2 hours of screen time
    | LogEveryDay                   // log every day this week
    | RunFiveMiles                  // defaults for a user without recent entries
    | SleepEachNight
    | WaterDaily
    | AverageScreenUnderFour
    | LogSevenDays

  function WeeklyTopic(g: WeeklyGoal): Topic {
    match g
    case RunTotal(_) | RunFiveMiles => Running
    case SleepAverage(_) | SleepEachNight => Sleep
    case WaterFiveDays | WaterDaily => Water
    case TwoLowScreenDays | AverageScreenUnderFour => Screen
    case LogEveryDay | LogSevenDays => Logging
  }

  /** `generate_weekly_goals`: always five goals, on running, sleep, water,
      screen time and logging in that order. With recent entries the running
      target is 10% over the recent total but never below 10 miles, and the
      sleep target is the recent average but never below 7 hours. */
  function WeeklyGoals(recent: seq<Metrics>): (r: seq<WeeklyGoal>)
    ensures |r| == 5
    ensures WeeklyTopic(r[0]) == Running && WeeklyTopic(r[1]) == Sleep && WeeklyTopic(r[2]) == Water
    ensures WeeklyTopic(r[3]) == Screen && WeeklyTopic(r[4]) == Logging
    ensures recent != [] ==>
      && r[0].RunTotal? && r[0].miles >= 10.0 && r[0].miles >= Total(recent, Mileage) * 1.1
      && (r[0].miles == 10.0 || r[0].miles == Total(recent, Mileage) * 1.1)
      && r[1].SleepAverage? && r[1].hours >= 7.0 && r[1].hours >= Average(recent, SleepHours)
      && (r[1].hours == 7.0 || r[1].hours == Average(recent, SleepHours))
      && r[2..] == [WaterFiveDays, TwoLowScreenDays, LogEveryDay]
    ensures recent == [] ==> r == [RunFiveMiles, SleepEachNight, WaterDaily, AverageScreenUnderFour, LogSevenDays]
  {
    if recent != [] then
      [RunTotal(Max(Total(recent, Mileage) * 1.1, 10.0)),
       SleepAverage(Max(Average(recent, SleepHours), 7.0)),
       WaterFiveDays, TwoLowScreenDays, LogEveryDay]
    else
      [RunFiveMiles, SleepEachNight, WaterDaily, AverageScreenUnderFour, LogSevenDays]
  }

  /** Nobody runs negative miles, so a user with recent entries is always asked
      for at least as much as they ran. */
  lemma WeeklyRunTargetCoversTotal(recent: seq<Metrics>)
    requires recent != []
    requires forall i :: 0 <= i < |recent| ==> 0.0 <= recent[i].runningMileage
    ensures WeeklyGoals(recent)[0].miles >= Total(recent, Mileage)
  {
    TotalAtLeast(recent, Mileage, 0.0);
  }

  // ---------------------------------------------------------------- progress analysis

  datatype Sentence =
    | AverageMileage(miles: real)   // the average miles run per day
    | SleepMore                     // aim for 7-9 hours
    | SleepWell                     // healthy sleep habits
    | DrinkMore                     // at least 2000ml per day
    | WellHydrated                  // staying hydrated
    | LessScreen                    // reduce screen time

  function SentenceTopic(s: Sentence): Topic {
    match s
    case AverageMileage(_) => Running
    case SleepMore | SleepWell => Sleep
    case DrinkMore | WellHydrated => Water
    case LessScreen => Screen
  }

  /** What `analyze_progress` answers: the fixed not-enough-data message, or
      the sentences it joins with newlines. */
  datatype Analysis = NotEnoughData | Report(sentences: seq<Sentence>)

  /** The four appended parts of the sentences, each of at most one sentence. */
  function SentenceParts(miles: real, sleep: real, water: real, screen: real): seq<seq<Sentence>> {
    [if miles > 0.0 then [AverageMileage(miles)] else [],
     [if sleep < 7.0 then SleepMore else SleepWell],
     [if water < 2000.0 then DrinkMore else WellHydrated],
     if screen > 4.0 then [LessScreen] else []]
  }

  /** The sentences for the four averages, in the order they are appended:
      2 to 4 of them, led by the mileage sentence exactly when the average
      mileage is positive. */
  function Sentences(miles: real, sleep: real, water: real, screen: real): (r: seq<Sentence>)
    ensures 2 <= |r| <= 4
    ensures r[0] == AverageMileage(miles) <==> miles > 0.0
  {
    var p := SentenceParts(miles, sleep, water, screen);
    p[0] + p[1] + p[2] + p[3]
  }

  /** The analysis of the entries `recent`: the fixed message exactly when
      there are none. */
  function Analyze(recent: seq<Metrics>): (r: Analysis)
    ensures r.NotEnoughData? <==> recent == []
    ensures r.Report? ==> 2 <= |r.sentences| <= 4
  {
    if recent == [] then NotEnoughData
    else Report(Sentences(Average(recent, Mileage), Average(recent, SleepHours),
                          Average(recent, WaterIntake), Average(recent, ScreenTime)))
  }

  lemma SentencesIsParts(miles: real, sleep: real, water: real, screen: real)
    ensures var p := SentenceParts(miles, sleep, water, screen);
      && Sentences(miles, sleep, water, screen) == p[0] + p[1] + p[2] + p[3]
      && |p[0]| <= 1 && |p[1]| == 1 && |p[2]| == 1 && |p[3]| <= 1
  {
  }

  /** Exactly one sentence is on sleep and exactly one on water. */
  lemma SentencesSleepAndWaterOnce(miles: real, sleep: real, water: real, screen: real)
    ensures CountOf(Sentences(miles, sleep, water, screen), SentenceTopic, Sleep) == 1
    ensures CountOf(Sentences(miles, sleep, water, screen), SentenceTopic, Water) == 1
  {
    var p := SentenceParts(miles, sleep, water, screen);
    SentencesIsParts(miles, sleep, water, screen);
    CountOfParts(p[0], p[1], p[2], p[3], SentenceTopic, Sleep);
    assert AtMostOne(p[0], SentenceTopic, Sleep) == 0 && AtMostOne(p[1], SentenceTopic, Sleep) == 1;
    assert AtMostOne(p[2], SentenceTopic, Sleep) == 0 && AtMostOne(p[3], SentenceTopic, Sleep) == 0;
    CountOfParts(p[0], p[1], p[2], p[3], SentenceTopic, Water);
    assert AtMostOne(p[0], SentenceTopic, Water) == 0 && AtMostOne(p[1], SentenceTopic, Water) == 0;
    assert AtMostOne(p[2], SentenceTopic, Water) == 1 && AtMostOne(p[3], SentenceTopic, Water) == 0;
  }

  /** One mileage sentence exactly when the mileage is positive, one
      screen-time sentence exactly when screen time is above 4 hours; never
      more. */
  lemma SentencesRunningAndScreen(miles: real, sleep: real, water: real, screen: real)
    ensures CountOf(Sentences(miles, sleep, water, screen), SentenceTopic, Running) == (if miles > 0.0 then 1 else 0)
    ensures CountOf(Sentences(miles, sleep, water, screen), SentenceTopic, Screen) == (if screen > 4.0 then 1 else 0)
  {
    var p := SentenceParts(miles, sleep, water, screen);
    SentencesIsParts(miles, sleep, water, screen);
    CountOfParts(p[0], p[1], p[2], p[3], SentenceTopic, Running);
    assert AtMostOne(p[1], SentenceTopic, Running) == 0 && AtMostOne(p[2], SentenceTopic, Running) == 0;
    assert AtMostOne(p[3], SentenceTopic, Running) == 0;
    CountOfParts(p[0], p[1], p[2], p[3], SentenceTopic, Screen);
    assert AtMostOne(p[0], SentenceTopic, Screen) == 0 && AtMostOne(p[1], SentenceTopic, Screen) == 0;
    assert AtMostOne(p[2], SentenceTopic, Screen) == 0;
  }

  /** With no entries the answer is the fixed message. Otherwise there are 2
      to 4 sentences: exactly one on sleep, exactly one on water, one on
      mileage exactly when the average mileage is positive, and one on screen
      time exactly when the average screen time is above 4 hours. */
  lemma AnalysisCounts(recent: seq<Metrics>)
    ensures Analyze(recent).NotEnoughData? <==> recent == []
    ensures recent != [] ==>
      var ss := Analyze(recent).sentences;
      && 2 <= |ss| <= 4
      && CountOf(ss, SentenceTopic, Sleep) == 1 && CountOf(ss, SentenceTopic, Water) == 1
      && CountOf(ss, SentenceTopic, Running) == (if Average(recent, Mileage) > 0.0 then 1 else 0)
      && CountOf(ss, SentenceTopic, Screen) == (if Average(recent, ScreenTime) > 4.0 then 1 else 0)
  {
    if recent != [] {
      var m, sl, w, sc := Average(recent, Mileage), Average(recent, SleepHours),
                          Average(recent, WaterIntake), Average(recent, ScreenTime);
      SentencesIsParts(m, sl, w, sc);
      SentencesSleepAndWaterOnce(m, sl, w, sc);
      SentencesRunningAndScreen(m, sl, w, sc);
    }
  }

  /** The threshold each sentence stands for: the low-sleep advice exactly
      below 7 hours, the water advice exactly below 2000, the screen advice
      exactly above 4 hours, and the mileage sentence carries the average. */
  lemma SentencesThresholds(miles: real, sleep: real, water: real, screen: real)
    ensures var ss := Sentences(miles, sleep, water, screen);
      && (AverageMileage(miles) in ss <==> miles > 0.0)
      && (SleepMore in ss <==> sleep < 7.0)
      && (SleepWell in ss <==> sleep >= 7.0)
      && (DrinkMore in ss <==> water < 2000.0)
      && (WellHydrated in ss <==> water >= 2000.0)
      && (LessScreen in ss <==> screen > 4.0)
  {
    SentencesIsParts(miles, sleep, water, screen);
  }

  /** `analyze_progress`: averages over the entries and one sentence per
      reading, appended in the order mileage, sleep, water, screen time. */
  method AnalyzeProgress(recent: seq<Metrics>) returns (r: Analysis)
    ensures r == Analyze(recent)
  {
    if |recent| == 0 {
      return NotEnoughData;
    }
    var analysis: seq<Sentence> := [];
    var n := |recent| as real;
    var avgMiles := Total(recent, Mileage) / n;
    if avgMiles > 0.0 {
      analysis := analysis + [AverageMileage(avgMiles)];
    }
    var avgSleep := Total(recent, SleepHours) / n;
    if avgSleep < 7.0 {
      analysis := analysis + [SleepMore];
    } else if avgSleep >= 7.0 {
      analysis := analysis + [SleepWell];
    }
    var avgWater := Total(recent, WaterIntake) / n;
    if avgWater < 2000.0 {
      analysis := analysis + [DrinkMore];
    } else {
      analysis := analysis + [WellHydrated];
    }
    var avgScreen := Total(recent, ScreenTime) / n;
    if avgScreen > 4.0 {
      analysis := analysis + [LessScreen];
    }
    r := Report(analysis);
  }

  // ---------------------------------------------------------------- dispatch

  /** `str.lower()` on ASCII letters. */
  function LowerChar(c: char): (d: char)
    ensures 'A' <= c <= 'Z' ==> d as int == c as int + 32
    ensures !('A' <= c <= 'Z') ==> d == c
  {
    if 'A' <= c <= 'Z' then (c as int + 32) as char else c
  }

  function Lower(s: string): (r: string)
    ensures |r| == |s|
    ensures forall i :: 0 <= i < |s| ==> r[i] == LowerChar(s[i])
  {
    seq(|s|, i requires 0 <= i < |s| => LowerChar(s[i]))
  }

  /** Lower-casing twice is lower-casing once. */
  lemma LowerIdempotent(s: string)
    ensures Lower(Lower(s)) == Lower(s)
  {
    assert forall i :: 0 <= i < |s| ==> LowerChar(LowerChar(s[i])) == LowerChar(s[i]);
  }

  /** Python's `word in text`: `word` occurs somewhere in `text`. */
  predicate Contains(text: string, word: string) {
    exists i :: 0 <= i <= |text| && word <= text[i..]
  }

  /** `any(word in text for word in words)`. */
  predicate AnyIn(text: string, words: seq<string>) {
    exists j :: 0 <= j < |words| && Contains(text, words[j])
  }

  const GoalWords: seq<string> := ["goal", "goals", "target"]
  const ProgressWords: seq<string> := ["progress", "doing", "analysis"]
  const MotivationWords: seq<string> := ["motivate", "motivation", "inspire"]
  const HelpWords: seq<string> := ["help", "guide", "how"]

  datatype Intent = AskGoals | AskProgress | AskMotivation | AskHelp | Chat

  /** The branch `process_message` takes for an already lower-cased text. */
  function Classify(text: string): (r: Intent)
    ensures r == Chat <==>
      !AnyIn(text, GoalWords) && !AnyIn(text, ProgressWords) && !AnyIn(text, MotivationWords) && !AnyIn(text, HelpWords)
  {
    if AnyIn(text, GoalWords) then AskGoals
    else if AnyIn(text, ProgressWords) then AskProgress
    else if AnyIn(text, MotivationWords) then AskMotivation
    else if AnyIn(text, HelpWords) then AskHelp
    else Chat
  }

  /** The keyword table in priority order. */
  const Rules: seq<(seq<string>, Intent)> :=
    [(GoalWords, AskGoals), (ProgressWords, AskProgress), (MotivationWords, AskMotivation), (HelpWords, AskHelp)]

  /** The first rule, from position `k` on, one of whose words occurs in the text. */
  function FirstMatch(text: string, rules: seq<(seq<string>, Intent)>, k: nat): Intent
    requires k <= |rules|
    decreases |rules| - k
  {
    if k == |rules| then Chat
    else if AnyIn(text, rules[k].0) then rules[k].1
    else FirstMatch(text, rules, k + 1)
  }

  /** The dispatch answers with the first topic, in the order goals,
      progress, motivation, help, that has a keyword in the text, and falls
      back to the general answer when none has. */
  lemma ClassifyIsFirstMatch(text: string)
    ensures Classify(text) == FirstMatch(text, Rules, 0)
  {
    assert FirstMatch(text, Rules, 4) == Chat;
    assert FirstMatch(text, Rules, 3) == if AnyIn(text, HelpWords) then AskHelp else Chat;
    assert FirstMatch(text, Rules, 2) == if AnyIn(text, MotivationWords) then AskMotivation else FirstMatch(text, Rules, 3);
    assert FirstMatch(text, Rules, 1) == if AnyIn(text, ProgressWords) then AskProgress else FirstMatch(text, Rules, 2);
  }

  /** Matching is by substring: a text containing "targets" asks for goals,
      whatever else it says. */
  lemma {:induction false} TargetsAsksGoals(text: string)
    requires Contains(text, "targets")
    ensures Classify(text) == AskGoals
  {
    var i :| 0 <= i <= |text| && "targets" <= text[i..];
    assert "target" <= text[i..];
    assert Contains(text, GoalWords[2]);
  }

  /** A message that mentions "doing" asks for progress, even when it also
      contains "how": the progress branch comes first. */
  lemma {:induction false} DoingBeforeHow(text: string)
    requires Contains(text, "doing") && !AnyIn(text, GoalWords)
    ensures Classify(text) == AskProgress
  {
    assert Contains(text, ProgressWords[1]);
  }

  datatype Reply =
    | GoalsReply(daily: seq<DailyGoal>, weekly: seq<WeeklyGoal>)
    | ProgressReply(analysis: Analysis)
    | MotivationReply(quote: string)
    | HelpReply
    | ChatReply

  /** `process_message`: the message is lower-cased and answered by the
      branch its keywords select. */
  method ProcessMessage(message: string, latest: Option<Metrics>, recent: seq<Metrics>, roll: nat)
    returns (r: Reply)
    ensures Classify(Lower(message)) == AskGoals <==> r.GoalsReply?
    ensures Classify(Lower(message)) == AskProgress <==> r.ProgressReply?
    ensures Classify(Lower(message)) == AskMotivation <==> r.MotivationReply?
    ensures Classify(Lower(message)) == AskHelp <==> r == HelpReply
    ensures Classify(Lower(message)) == Chat <==> r == ChatReply
    ensures r.GoalsReply? ==> r.daily == DailyGoals(latest) && r.weekly == WeeklyGoals(recent)
    ensures r.ProgressReply? ==> r.analysis == Analyze(recent)
    ensures r.MotivationReply? ==> r.quote in Quotes
  {
    var text := Lower(message);
    var intent := Classify(text);
    match intent
    case AskGoals =>
      var daily := GenerateDailyGoals(latest);
      r := GoalsReply(daily, WeeklyGoals(recent));
    case AskProgress =>
      var analysis := AnalyzeProgress(recent);
      r := ProgressReply(analysis);
    case AskMotivation =>
      r := MotivationReply(Motivation(roll));
    case AskHelp =>
      r := HelpReply;
    case Chat =>
      r := ChatReply;
  }
}
