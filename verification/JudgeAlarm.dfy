/** When the judge sends an event (modules/judge/store/judge.go, modules/judge/g/var.go): the state
    machine over the last event of each id, and whole runs of it behind the sample history. */
module JudgeAlarm {
  import opened Decimal
  import opened Options
  import opened JudgeHistory
  import opened JudgeFunctions
  import opened Strings

  datatype Status = Ok | Problem
  datatype Event = Event(id: string, status: Status, currentStep: int, eventTime: int, leftValue: real)

  /** What goes into one decision: the window judged, the verdict on it, the clock and the strategy's limit. */
  datatype Judgement = Judgement(window: seq<HistoryPoint>, isTriggered: bool, now: int, event: Event, maxStep: int)

  /** A sent event together with the window and the clock reading behind it. */
  datatype Sent = Sent(event: Event, window: seq<HistoryPoint>, now: int)

  datatype Alarms = Alarms(last: map<string, Event>, log: seq<Sent>)

  function LastOf(last: map<string, Event>, id: string): Option<Event> {
    if id in last then Some(last[id]) else None
  }

  /** The event to send, if any. */
  function Decide(last: Option<Event>, j: Judgement, minInterval: int): Option<Event>
    requires j.window != []
  {
    if j.isTriggered then
      if last.None? || last.value.status.Ok? then
        if j.maxStep == 0 then None else Some(j.event.(status := Problem, currentStep := 1))
      else if last.value.currentStep >= j.maxStep then None
      else if j.window[|j.window| - 1].ts <= last.value.eventTime then None
      else if j.now - last.value.eventTime < minInterval then None
      else Some(j.event.(status := Problem, currentStep := last.value.currentStep + 1))
    else if last.Some? && last.value.status.Problem? then Some(j.event.(status := Ok, currentStep := 1))
    else None
  }

  function Judged(a: Alarms, j: Judgement, minInterval: int): Alarms
    requires j.window != []
  {
    match Decide(LastOf(a.last, j.event.id), j, minInterval)
    case None => a
    case Some(e) => Alarms(a.last[e.id := e], a.log + [Sent(e, j.window, j.now)])
  }

  function Events(log: seq<Sent>): seq<Event> {
    seq(|log|, i requires 0 <= i < |log| => log[i].event)
  }

  /** The map of last events and the queue of sent ones. */
  class AlarmSender {
    var lastEvents: map<string, Event>
    var queue: seq<Event>
    ghost var log: seq<Sent>

    ghost predicate Valid()
      reads this
    {
      queue == Events(log)
    }

    ghost function State(): Alarms
      reads this
    {
      Alarms(lastEvents, log)
    }

    constructor ()
      ensures Valid() && State() == Alarms(map[], [])
    {
      lastEvents, queue, log := map[], [], [];
    }

    method SendEvent(event: Event, ghost j: Judgement)
      requires Valid()
      modifies this
      ensures Valid()
      ensures State() == Alarms(old(lastEvents)[event.id := event], old(log) + [Sent(event, j.window, j.now)])
      ensures queue == old(queue) + [event]
    {
      lastEvents := lastEvents[event.id := event];
      queue := queue + [event];
      log := log + [Sent(event, j.window, j.now)];
    }

    method SendEventIfNeed(historyData: seq<HistoryPoint>, isTriggered: bool, now: int, event: Event, maxStep: int,
                           minInterval: int)
      requires Valid() && historyData != []
      modifies this
      ensures Valid()
      ensures State() == Judged(old(State()), Judgement(historyData, isTriggered, now, event, maxStep), minInterval)
    {
      ghost var j := Judgement(historyData, isTriggered, now, event, maxStep);
      var known := event.id in lastEvents;
      var e := event;
      if isTriggered {
        e := e.(status := Problem);
        if !known || lastEvents[event.id].status.Ok? {
          e := e.(currentStep := 1);
          if maxStep == 0 {
            return;
          }
          SendEvent(e, j);
          return;
        }
        var lastEvent := lastEvents[event.id];
        if lastEvent.currentStep >= maxStep {
          return;
        }
        if historyData[|historyData| - 1].ts <= lastEvent.eventTime {
          return;
        }
        if now - lastEvent.eventTime < minInterval {
          return;
        }
        e := e.(currentStep := lastEvent.currentStep + 1);
        SendEvent(e, j);
      } else {
        if known && lastEvents[event.id].status.Problem? {
          e := e.(status := Ok, currentStep := 1);
          SendEvent(e, j);
        }
      }
    }
  }

  // ----- runs of judgements on any mix of event ids -----

  ghost predicate Judgeable(js: seq<Judgement>) {
    forall i :: 0 <= i < |js| ==> js[i].window != []
  }

  function RunJudgements(js: seq<Judgement>, minInterval: int): Alarms
    requires Judgeable(js)
  {
    if js == [] then Alarms(map[], [])
    else Judged(RunJudgements(js[..|js| - 1], minInterval), js[|js| - 1], minInterval)
  }

  /** The status and step of the events sent for one id, in order. */
  function Trace(log: seq<Sent>, id: string): seq<(Status, int)> {
    if log == [] then []
    else
      var rest, e := Trace(log[..|log| - 1], id), log[|log| - 1].event;
      if e.id == id then rest + [(e.status, e.currentStep)] else rest
  }

  /** PROBLEM steps 1 to n. */
  function Problems(n: nat): seq<(Status, int)> {
    if n == 0 then [] else Problems(n - 1) + [(Problem, n)]
  }

  /** One closed episode after the other: each climbs from step 1 and ends with a single OK. */
  function Episodes(ks: seq<nat>): seq<(Status, int)> {
    if ks == [] then [] else Episodes(ks[..|ks| - 1]) + Problems(ks[|ks| - 1]) + [(Ok, 1)]
  }

  lemma TraceAppend(log: seq<Sent>, s: Sent, id: string)
    ensures Trace(log + [s], id) ==
            if s.event.id == id then Trace(log, id) + [(s.event.status, s.event.currentStep)] else Trace(log, id)
  {
    assert (log + [s])[..|log|] == log;
  }

  /** The remembered event is the step reached in the open episode, or the OK that closed the last one. */
  ghost predicate LastIs(last: Option<Event>, ks: seq<nat>, open: nat) {
    if open > 0 then last.Some? && last.value.status == Problem && last.value.currentStep == open
    else if ks != [] then last.Some? && last.value.status == Ok
    else last.None?
  }

  ghost predicate InEpisodes(trace: seq<(Status, int)>, last: Option<Event>, bound: nat, ks: seq<nat>, open: nat) {
    && trace == Episodes(ks) + Problems(open)
    && (forall i :: 0 <= i < |ks| ==> 1 <= ks[i] <= bound)
    && open <= bound
    && LastIs(last, ks, open)
  }

  lemma Regroup<T>(a: seq<T>, b: seq<T>, x: T)
    ensures (a + b) + [x] == a + (b + [x])
  {
  }

  /** One more PROBLEM. */
  lemma ProblemGrows(ks: seq<nat>, open: nat)
    ensures Episodes(ks) + Problems(open) + [(Problem, open + 1)] == Episodes(ks) + Problems(open + 1)
  {
    Regroup(Episodes(ks), Problems(open), (Problem, open + 1));
  }

  lemma AppendInit<T>(s: seq<T>, x: T)
    ensures (s + [x])[..|s + [x]| - 1] == s && (s + [x])[|s + [x]| - 1] == x && s + [] == s
  {
  }

  /** One OK closes the episode. */
  lemma EpisodeCloses(ks: seq<nat>, open: nat)
    ensures Episodes(ks) + Problems(open) + [(Ok, 1)] == Episodes(ks + [open]) + Problems(0)
  {
    AppendInit(ks, open);
    AppendInit(Episodes(ks + [open]), (Ok, 1));
  }

  /** What is sent, by what is remembered of the episode. */
  lemma DecidedStep(last: Option<Event>, j: Judgement, minInterval: int, bound: nat, ks: seq<nat>, open: nat)
    requires j.window != [] && bound >= 1 && j.maxStep <= bound && LastIs(last, ks, open)
    requires Decide(last, j, minInterval).Some?
    ensures var e := Decide(last, j, minInterval).value;
            if j.isTriggered then e.status == Problem && e.currentStep == open + 1 <= bound
            else e.status == Ok && e.currentStep == 1 && open > 0
  {
  }

  lemma AllWithin(ks: seq<nat>, open: nat, bound: nat)
    requires (forall i :: 0 <= i < |ks| ==> 1 <= ks[i] <= bound) && 1 <= open <= bound
    ensures forall i :: 0 <= i < |ks + [open]| ==> 1 <= (ks + [open])[i] <= bound
  {
  }

  /** A decision to send moves the trace to the next step, or closes the episode. */
  lemma EpisodeStep(trace: seq<(Status, int)>, last: Option<Event>, j: Judgement, minInterval: int, bound: nat,
                    ks: seq<nat>, open: nat) returns (ks': seq<nat>, open': nat)
    requires j.window != [] && bound >= 1 && j.maxStep <= bound && InEpisodes(trace, last, bound, ks, open)
    requires Decide(last, j, minInterval).Some?
    ensures var d := Decide(last, j, minInterval);
            InEpisodes(trace + [(d.value.status, d.value.currentStep)], d, bound, ks', open')
  {
    DecidedStep(last, j, minInterval, bound, ks, open);
    if j.isTriggered {
      ks', open' := ks, open + 1;
      ProblemGrows(ks, open);
    } else {
      ks', open' := ks + [open], 0;
      EpisodeCloses(ks, open);
      AllWithin(ks, open, bound);
    }
  }

  /** What one judgement does to the trace and the remembered event of an id. */
  lemma JudgedTrace(a: Alarms, j: Judgement, minInterval: int, id: string)
    requires j.window != []
    ensures var a', d := Judged(a, j, minInterval), Decide(LastOf(a.last, j.event.id), j, minInterval);
            if j.event.id == id && d.Some? then
              && Trace(a'.log, id) == Trace(a.log, id) + [(d.value.status, d.value.currentStep)]
              && LastOf(a'.last, id) == d
            else Trace(a'.log, id) == Trace(a.log, id) && LastOf(a'.last, id) == LastOf(a.last, id)
  {
    var d := Decide(LastOf(a.last, j.event.id), j, minInterval);
    if d.Some? {
      TraceAppend(a.log, Sent(d.value, j.window, j.now), id);
    }
  }

  /** In every run the events of one id are closed episodes and one open episode, none longer than the limit. */
  lemma {:induction false} EpisodeForm(js: seq<Judgement>, minInterval: int, id: string, bound: nat)
    returns (ks: seq<nat>, open: nat)
    requires Judgeable(js) && bound >= 1
    requires forall i :: 0 <= i < |js| && js[i].event.id == id ==> js[i].maxStep <= bound
    ensures var a := RunJudgements(js, minInterval);
            InEpisodes(Trace(a.log, id), LastOf(a.last, id), bound, ks, open)
  {
    if js == [] {
      ks, open := [], 0;
    } else {
      var init, j := js[..|js| - 1], js[|js| - 1];
      ks, open := EpisodeForm(init, minInterval, id, bound);
      var a := RunJudgements(init, minInterval);
      JudgedTrace(a, j, minInterval, id);
      if j.event.id == id && Decide(LastOf(a.last, id), j, minInterval).Some? {
        ks, open := EpisodeStep(Trace(a.log, id), LastOf(a.last, id), j, minInterval, bound, ks, open);
      }
    }
  }

  /** A strategy with step limit zero is silent. */
  lemma {:induction false} ZeroStepsAreSilent(js: seq<Judgement>, minInterval: int, id: string)
    requires Judgeable(js)
    requires forall i :: 0 <= i < |js| && js[i].event.id == id ==> js[i].maxStep == 0
    ensures var a := RunJudgements(js, minInterval); Trace(a.log, id) == [] && LastOf(a.last, id) == None
  {
    if js != [] {
      var init, j := js[..|js| - 1], js[|js| - 1];
      ZeroStepsAreSilent(init, minInterval, id);
      var a := RunJudgements(init, minInterval);
      JudgedTrace(a, j, minInterval, id);
    }
  }

  // ----- rules and event ids -----

  /** A strategy or an expression, with the function it was read as. */
  datatype Rule = Rule(expression: bool, id: int, fn: Function, maxStep: int)

  /** A rule as it was applied to a sample, with the value it reported. */
  datatype Application = Application(rule: Rule, leftValue: real)

  /** `s_<id>_<key>` for a strategy, `e_<id>_<key>` for an expression. */
  function EventId(r: Rule, key: string): string {
    [if r.expression then 'e' else 's'] + (['_'] + (PrintInt(r.id) + ['_'] + key))
  }

  lemma PrintIntInjective(i: int, j: int)
    requires PrintInt(i) == PrintInt(j)
    ensures i == j
  {
    var max := (if i < 0 then -i else i) + if j < 0 then -j else j;
    IntBack(i, max);
    IntBack(j, max);
  }

  lemma EventIdTail(r: Rule, key: string)
    ensures EventId(r, key)[0] == (if r.expression then 'e' else 's')
            && EventId(r, key)[2..] == PrintInt(r.id) + ['_'] + key
  {
  }

  /** An event id tells the key, and which of the key's rules it is for. */
  lemma EventIdInjective(r: Rule, key: string, r': Rule, key': string)
    requires EventId(r, key) == EventId(r', key')
    ensures key == key' && r.expression == r'.expression && r.id == r'.id
  {
    EventIdTail(r, key);
    EventIdTail(r', key');
    PrintIntChars(r.id, '_');
    PrintIntChars(r'.id, '_');
    UniqueCut(PrintInt(r.id), key, PrintInt(r'.id), key', '_');
    PrintIntInjective(r.id, r'.id);
  }

  ghost predicate Owns(key: string, id: string) {
    exists r :: EventId(r, key) == id
  }

  lemma OwnerUnique(key: string, key': string, id: string)
    requires Owns(key, id) && Owns(key', id)
    ensures key == key'
  {
    var r :| EventId(r, key) == id;
    var r' :| EventId(r', key') == id;
    EventIdInjective(r, key, r', key');
  }

  // ----- the histories and the alarms together -----

  /** A sample arriving under a key, with the rules that apply to it at that moment. */
  datatype Feed = Feed(key: string, item: JudgeItem, now: int, checks: seq<Application>)

  datatype Judging = Judging(histories: map<string, seq<JudgeItem>>, alarms: Alarms)

  ghost predicate AllDecreasing(m: map<string, seq<JudgeItem>>) {
    forall k :: k in m ==> Decreasing(m[k])
  }

  ghost function JudgementOf(history: seq<JudgeItem>, f: Feed, c: Application): Judgement
    requires Decreasing(history)
  {
    var w := Window(history, Needed(c.rule.fn));
    var event := Event(EventId(c.rule, f.key), Ok, 0, f.item.ts, c.leftValue);
    Judgement(w, Triggers(c.rule.fn, w), f.now, event, c.rule.maxStep)
  }

  /** One rule: judged when there is enough history. */
  ghost function CheckedOne(a: Alarms, history: seq<JudgeItem>, f: Feed, c: Application, minInterval: int): Alarms
    requires Decreasing(history)
  {
    WindowProperties(history, Needed(c.rule.fn));
    if IsEnough(history, Needed(c.rule.fn)) then Judged(a, JudgementOf(history, f, c), minInterval) else a
  }

  /** All rules, one after the other. */
  ghost function Checked(a: Alarms, history: seq<JudgeItem>, f: Feed, checks: seq<Application>,
                         minInterval: int): Alarms
    requires Decreasing(history)
  {
    if checks == [] then a
    else CheckedOne(Checked(a, history, f, checks[..|checks| - 1], minInterval), history, f, checks[|checks| - 1],
        minInterval)
  }

  predicate Judges(m: map<string, seq<JudgeItem>>, f: Feed) {
    f.key in m ==> Accepts(m[f.key], f.item)
  }

  lemma PushedMapDecreasing(m: map<string, seq<JudgeItem>>, key: string, v: JudgeItem, remain: nat)
    requires AllDecreasing(m)
    ensures AllDecreasing(PushedMap(m, key, v, remain))
  {
    if key in m {
      PushedDecreasing(m[key], v, remain);
    }
  }

  /** Push the sample; when it is taken, judge it by every rule. */
  ghost function Received(s: Judging, f: Feed, remain: nat, minInterval: int): (s': Judging)
    requires AllDecreasing(s.histories)
    ensures AllDecreasing(s'.histories)
  {
    var m := PushedMap(s.histories, f.key, f.item, remain);
    PushedMapDecreasing(s.histories, f.key, f.item, remain);
    if !Judges(s.histories, f) then s else Judging(m, Checked(s.alarms, m[f.key], f, f.checks, minInterval))
  }

  /** Judging by one strategy or expression. */
  method JudgeItemWithRule(L: SafeLinkedList, alarms: AlarmSender, key: string, item: JudgeItem, now: int, rule: Rule,
                           minInterval: int) returns (leftValue: real)
    requires L.Valid() && alarms.Valid() && Readable(L.L)
    modifies alarms
    ensures alarms.Valid()
    ensures alarms.State() ==
            CheckedOne(old(alarms.State()), L.L, Feed(key, item, now, []), Application(rule, leftValue), minInterval)
    ensures IsEnough(L.L, Needed(rule.fn)) ==> IsLeft(rule.fn, Window(L.L, Needed(rule.fn)), leftValue)
  {
    var historyData, isTriggered, isEnough;
    historyData, leftValue, isTriggered, isEnough := Compute(rule.fn, L);
    if isEnough {
      var event := Event(EventId(rule, key), Ok, 0, item.ts, leftValue);
      alarms.SendEventIfNeed(historyData, isTriggered, now, event, rule.maxStep, minInterval);
    }
  }

  /** Judging by all rules of the moment, in order. */
  method JudgeAll(L: SafeLinkedList, alarms: AlarmSender, key: string, item: JudgeItem, now: int, rules: seq<Rule>,
                  minInterval: int) returns (checks: seq<Application>)
    requires L.Valid() && alarms.Valid() && Readable(L.L)
    modifies alarms
    ensures alarms.Valid() && |checks| == |rules|
    ensures forall i :: 0 <= i < |rules| ==> checks[i].rule == rules[i]
    ensures alarms.State() == Checked(old(alarms.State()), L.L, Feed(key, item, now, checks), checks, minInterval)
  {
    checks := [];
    for i := 0 to |rules|
      invariant alarms.Valid() && |checks| == i
      invariant forall k :: 0 <= k < i ==> checks[k].rule == rules[k]
      invariant alarms.State() == Checked(old(alarms.State()), L.L, Feed(key, item, now, []), checks, minInterval)
    {
      var leftValue := JudgeItemWithRule(L, alarms, key, item, now, rules[i], minInterval);
      ghost var before := checks;
      checks := checks + [Application(rules[i], leftValue)];
      assert checks[..|checks| - 1] == before;
    }
    CheckedFeed(old(alarms.State()), L.L, Feed(key, item, now, []), Feed(key, item, now, checks), checks, minInterval);
  }

  /** Which checks the feed lists does not matter to those made. */
  lemma {:induction false} CheckedFeed(a: Alarms, history: seq<JudgeItem>, f: Feed, f': Feed, checks: seq<Application>,
                                       minInterval: int)
    requires Decreasing(history) && f.key == f'.key && f.item == f'.item && f.now == f'.now
    ensures Checked(a, history, f, checks, minInterval) == Checked(a, history, f', checks, minInterval)
  {
    if checks != [] {
      CheckedFeed(a, history, f, f', checks[..|checks| - 1], minInterval);
    }
  }

  ghost predicate AllReadable(m: map<string, seq<JudgeItem>>) {
    forall k :: k in m ==> Readable(m[k])
  }

  /** All rules on the history of a key. */
  method JudgeKnown(big: JudgeItemMap, alarms: AlarmSender, key: string, item: JudgeItem, now: int, rules: seq<Rule>,
                    minInterval: int) returns (checks: seq<Application>)
    requires big.Valid() && alarms.Valid() && AllReadable(big.Contents()) && key in big.Contents()
    modifies alarms
    ensures alarms.Valid() && |checks| == |rules| && big.Valid() && big.Contents() == old(big.Contents())
    ensures forall i :: 0 <= i < |rules| ==> checks[i].rule == rules[i]
    ensures alarms.State() ==
            Checked(old(alarms.State()), big.Contents()[key], Feed(key, item, now, checks), checks, minInterval)
  {
    ghost var m := big.Contents();
    checks := JudgeAll(big.M[key], alarms, key, item, now, rules, minInterval);
    assert big.Contents() == m;
  }

  /** One sample through its history, and through all its rules to the alarms. */
  method Receive(big: JudgeItemMap, alarms: AlarmSender, key: string, item: JudgeItem, now: int, rules: seq<Rule>,
                 remain: nat, minInterval: int) returns (checks: seq<Application>)
    requires big.Valid() && alarms.Valid() && AllReadable(big.Contents()) && item.judgeType != ""
    modifies big, big.Lists(), alarms
    ensures big.Valid() && alarms.Valid() && AllReadable(big.Contents())
    ensures |checks| == |rules| && forall i :: 0 <= i < |rules| ==> checks[i].rule == rules[i]
    ensures AllDecreasing(old(big.Contents()))
    ensures Judging(big.Contents(), alarms.State()) ==
            Received(Judging(old(big.Contents()), old(alarms.State())), Feed(key, item, now, checks), remain,
                minInterval)
  {
    ghost var m, a := big.Contents(), alarms.State();
    var needJudge := big.PushFrontAndMaintain(key, item, remain);
    ghost var m' := big.Contents();
    PushedReadable(m, key, item, remain);
    if needJudge {
      checks := JudgeKnown(big, alarms, key, item, now, rules, minInterval);
      ReceivedIs(m, a, Feed(key, item, now, checks), remain, minInterval);
    } else {
      checks := seq(|rules|, i requires 0 <= i < |rules| => Application(rules[i], 0.0));
      ReceivedIs(m, a, Feed(key, item, now, checks), remain, minInterval);
    }
  }

  lemma ReceivedIs(m: map<string, seq<JudgeItem>>, a: Alarms, f: Feed, remain: nat, minInterval: int)
    requires AllDecreasing(m)
    ensures var m' := PushedMap(m, f.key, f.item, remain);
            && f.key in m' && Decreasing(m'[f.key]) && (!Judges(m, f) ==> m' == m)
            && Received(Judging(m, a), f, remain, minInterval) ==
               if Judges(m, f) then Judging(m', Checked(a, m'[f.key], f, f.checks, minInterval)) else Judging(m, a)
  {
    PushedMapDecreasing(m, f.key, f.item, remain);
  }

  lemma PushedReadable(m: map<string, seq<JudgeItem>>, key: string, item: JudgeItem, remain: nat)
    requires AllReadable(m) && item.judgeType != ""
    ensures AllReadable(PushedMap(m, key, item, remain))
  {
  }

  ghost function RunFeeds(feeds: seq<Feed>, remain: nat, minInterval: int): (s: Judging)
    ensures AllDecreasing(s.histories)
  {
    if feeds == [] then Judging(map[], Alarms(map[], []))
    else Received(RunFeeds(feeds[..|feeds| - 1], remain, minInterval), feeds[|feeds| - 1], remain, minInterval)
  }

  // ----- spacing, for each event id -----

  /** How a later event relates to the one sent before it. */
  ghost predicate Follows(earlier: Sent, later: Sent, minInterval: int) {
    && earlier.event.eventTime < later.event.eventTime
    && (earlier.event.status == Problem && later.event.status == Problem ==>
          && later.event.currentStep == earlier.event.currentStep + 1
          && minInterval <= later.now - earlier.event.eventTime
          && forall i :: 0 <= i < |later.window| ==> earlier.event.eventTime < later.window[i].ts)
  }

  ghost predicate WellSpaced(a: Alarms, id: string, minInterval: int) {
    && (LastOf(a.last, id) == if a.log == [] then None else Some(a.log[|a.log| - 1].event))
    && (forall i, j :: 0 <= i && j == i + 1 && j < |a.log| ==> Follows(a.log[i], a.log[j], minInterval))
    && (forall i :: 0 <= i < |a.log| ==> a.log[i].window != [] && a.log[i].window[0].ts == a.log[i].event.eventTime)
  }

  lemma JudgedWellSpaced(a: Alarms, j: Judgement, minInterval: int)
    requires WellSpaced(a, j.event.id, minInterval) && j.window != [] && j.window[0].ts == j.event.eventTime
    requires forall i, k :: 0 <= i < k < |j.window| ==> j.window[k].ts < j.window[i].ts
    requires a.log != [] ==> a.log[|a.log| - 1].event.eventTime < j.event.eventTime
    ensures var a' := Judged(a, j, minInterval);
            WellSpaced(a', j.event.id, minInterval)
            && (a'.log != [] ==> a'.log[|a'.log| - 1].event.eventTime <= j.event.eventTime)
  {
    var d := Decide(LastOf(a.last, j.event.id), j, minInterval);
    if d.Some? {
      var s := Sent(d.value, j.window, j.now);
      if a.log != [] {
        assert Follows(a.log[|a.log| - 1], s, minInterval);
      }
    }
  }

  function OfId(log: seq<Sent>, id: string): seq<Sent> {
    if log == [] then []
    else
      var rest, s := OfId(log[..|log| - 1], id), log[|log| - 1];
      if s.event.id == id then rest + [s] else rest
  }

  /** The events of one id, out of all that were sent. */
  function EventsOf(a: Alarms, id: string): Alarms {
    Alarms(a.last, OfId(a.log, id))
  }

  lemma OfIdAppend(log: seq<Sent>, s: Sent, id: string)
    ensures OfId(log + [s], id) == if s.event.id == id then OfId(log, id) + [s] else OfId(log, id)
  {
    assert (log + [s])[..|log|] == log;
  }

  /** Two alarm states that look the same to one id. */
  ghost predicate SameTo(a: Alarms, b: Alarms, id: string) {
    a.log == b.log && LastOf(a.last, id) == LastOf(b.last, id)
  }

  /** Judging on all events is judging on the id's own ones; another id's judgement is not seen. */
  lemma JudgedOwn(a: Alarms, j: Judgement, minInterval: int, id: string)
    requires j.window != []
    ensures j.event.id != id ==> SameTo(EventsOf(Judged(a, j, minInterval), id), EventsOf(a, id), id)
    ensures j.event.id == id ==>
              SameTo(EventsOf(Judged(a, j, minInterval), id), Judged(EventsOf(a, id), j, minInterval), id)
  {
    var d := Decide(LastOf(a.last, j.event.id), j, minInterval);
    if d.Some? {
      OfIdAppend(a.log, Sent(d.value, j.window, j.now), id);
    }
  }

  /** The id's last event is older than `t`, or not newer. */
  ghost predicate LastBefore(log: seq<Sent>, t: int, strictly: bool) {
    log != [] ==> log[|log| - 1].event.eventTime < t || (!strictly && log[|log| - 1].event.eventTime == t)
  }

  /** A key's rules are judged once per sample: hbs sends a host unique strategy ids, and a judge skips the
      expressions it has handled. */
  ghost predicate DistinctRules(checks: seq<Application>) {
    forall i, j :: 0 <= i < j < |checks| ==>
      checks[i].rule.expression != checks[j].rule.expression || checks[i].rule.id != checks[j].rule.id
  }

  /** None of the checks is for the event id. */
  ghost predicate Foreign(key: string, checks: seq<Application>, id: string) {
    forall i :: 0 <= i < |checks| ==> EventId(checks[i].rule, key) != id
  }

  lemma CheckedOneOwn(a: Alarms, history: seq<JudgeItem>, f: Feed, c: Application, minInterval: int, id: string)
    requires Decreasing(history) && EventId(c.rule, f.key) != id
    ensures SameTo(EventsOf(CheckedOne(a, history, f, c, minInterval), id), EventsOf(a, id), id)
  {
    if IsEnough(history, Needed(c.rule.fn)) {
      WindowProperties(history, Needed(c.rule.fn));
      JudgedOwn(a, JudgementOf(history, f, c), minInterval, id);
    }
  }

  lemma {:induction false} ForeignChecks(a: Alarms, history: seq<JudgeItem>, f: Feed, checks: seq<Application>,
                                         minInterval: int, id: string)
    requires Decreasing(history) && Foreign(f.key, checks, id)
    ensures SameTo(EventsOf(Checked(a, history, f, checks, minInterval), id), EventsOf(a, id), id)
  {
    if checks != [] {
      var n := |checks| - 1;
      ForeignChecks(a, history, f, checks[..n], minInterval, id);
      CheckedOneOwn(Checked(a, history, f, checks[..n], minInterval), history, f, checks[n], minInterval, id);
    }
  }

  /** The id's events are spaced, and older than `t`, or not newer. */
  ghost predicate SpacedTill(a: Alarms, id: string, minInterval: int, t: int, strictly: bool) {
    WellSpaced(EventsOf(a, id), id, minInterval) && LastBefore(OfId(a.log, id), t, strictly)
  }

  lemma SameSpaced(a: Alarms, b: Alarms, id: string, minInterval: int, t: int, strictly: bool)
    requires SameTo(EventsOf(b, id), EventsOf(a, id), id) && SpacedTill(a, id, minInterval, t, strictly)
    ensures SpacedTill(b, id, minInterval, t, strictly)
  {
  }

  /** The one check for the id keeps its events spaced. */
  lemma OwnCheck(a: Alarms, history: seq<JudgeItem>, f: Feed, c: Application, minInterval: int)
    requires Decreasing(history) && history != [] && history[0] == f.item
    requires SpacedTill(a, EventId(c.rule, f.key), minInterval, f.item.ts, true)
    ensures SpacedTill(CheckedOne(a, history, f, c, minInterval), EventId(c.rule, f.key), minInterval, f.item.ts, false)
  {
    var id := EventId(c.rule, f.key);
    if IsEnough(history, Needed(c.rule.fn)) {
      WindowProperties(history, Needed(c.rule.fn));
      var j := JudgementOf(history, f, c);
      JudgedOwn(a, j, minInterval, id);
      JudgedWellSpaced(EventsOf(a, id), j, minInterval);
    }
  }

  /** Before the last of distinct rules none is for its event id. */
  lemma OthersForeign(key: string, checks: seq<Application>)
    requires checks != [] && DistinctRules(checks)
    ensures Foreign(key, checks[..|checks| - 1], EventId(checks[|checks| - 1].rule, key))
  {
    var n := |checks| - 1;
    forall i | 0 <= i < n ensures EventId(checks[..n][i].rule, key) != EventId(checks[n].rule, key) {
      if EventId(checks[i].rule, key) == EventId(checks[n].rule, key) {
        EventIdInjective(checks[i].rule, key, checks[n].rule, key);
      }
    }
  }

  lemma {:induction false} ChecksWellSpaced(a: Alarms, history: seq<JudgeItem>, f: Feed, checks: seq<Application>,
                                            minInterval: int, id: string)
    requires Decreasing(history) && history != [] && history[0] == f.item && DistinctRules(checks)
    requires SpacedTill(a, id, minInterval, f.item.ts, true)
    ensures SpacedTill(Checked(a, history, f, checks, minInterval), id, minInterval, f.item.ts, false)
  {
    if checks != [] {
      var n := |checks| - 1;
      var c, b := checks[n], Checked(a, history, f, checks[..n], minInterval);
      if EventId(c.rule, f.key) == id {
        OthersForeign(f.key, checks);
        ForeignChecks(a, history, f, checks[..n], minInterval, id);
        SameSpaced(a, b, id, minInterval, f.item.ts, true);
        OwnCheck(b, history, f, c, minInterval);
      } else {
        ChecksWellSpaced(a, history, f, checks[..n], minInterval, id);
        CheckedOneOwn(b, history, f, c, minInterval, id);
        SameSpaced(b, CheckedOne(b, history, f, c, minInterval), id, minInterval, f.item.ts, false);
      }
    }
  }

  /** No event of an id is newer than the newest sample of its key. */
  ghost predicate Behind(s: Judging, id: string) {
    forall key :: Owns(key, id) && OfId(s.alarms.log, id) != [] ==>
      && key in s.histories && s.histories[key] != []
      && LastBefore(OfId(s.alarms.log, id), s.histories[key][0].ts, false)
  }

  lemma ReceivedOwn(s: Judging, f: Feed, remain: nat, minInterval: int, id: string)
    requires AllDecreasing(s.histories) && remain >= 1 && DistinctRules(f.checks) && Owns(f.key, id)
    requires WellSpaced(EventsOf(s.alarms, id), id, minInterval) && Behind(s, id)
    ensures var s' := Received(s, f, remain, minInterval);
            WellSpaced(EventsOf(s'.alarms, id), id, minInterval) && Behind(s', id)
  {
    if Judges(s.histories, f) {
      var m := PushedMap(s.histories, f.key, f.item, remain);
      PushedMapDecreasing(s.histories, f.key, f.item, remain);
      assert m[f.key] != [] && m[f.key][0] == f.item;
      ChecksWellSpaced(s.alarms, m[f.key], f, f.checks, minInterval, id);
      forall key | Owns(key, id) ensures key == f.key {
        OwnerUnique(key, f.key, id);
      }
    }
  }

  lemma ReceivedForeign(s: Judging, f: Feed, remain: nat, minInterval: int, id: string)
    requires AllDecreasing(s.histories) && !Owns(f.key, id)
    requires WellSpaced(EventsOf(s.alarms, id), id, minInterval) && Behind(s, id)
    ensures var s' := Received(s, f, remain, minInterval);
            WellSpaced(EventsOf(s'.alarms, id), id, minInterval) && Behind(s', id)
  {
    if Judges(s.histories, f) {
      PushedMapDecreasing(s.histories, f.key, f.item, remain);
      ForeignChecks(s.alarms, PushedMap(s.histories, f.key, f.item, remain)[f.key], f, f.checks, minInterval, id);
    }
  }

  ghost predicate RulesDistinct(feeds: seq<Feed>) {
    forall i :: 0 <= i < |feeds| ==> DistinctRules(feeds[i].checks)
  }

  /** In every run of samples of any keys, judged by any rules, and for every event id: event times strictly increase,
      and an alarm of an episode uses no point an earlier alarm was raised by, and comes at least the minimal interval
      after the earlier event time. */
  lemma {:induction false} AlarmWindowsAreDisjoint(feeds: seq<Feed>, id: string, remain: nat, minInterval: int)
    requires remain >= 1 && RulesDistinct(feeds)
    ensures WellSpaced(EventsOf(RunFeeds(feeds, remain, minInterval).alarms, id), id, minInterval)
    ensures Behind(RunFeeds(feeds, remain, minInterval), id)
  {
    if feeds != [] {
      var init, f := feeds[..|feeds| - 1], feeds[|feeds| - 1];
      AlarmWindowsAreDisjoint(init, id, remain, minInterval);
      var s := RunFeeds(init, remain, minInterval);
      if Owns(f.key, id) {
        ReceivedOwn(s, f, remain, minInterval, id);
      } else {
        ReceivedForeign(s, f, remain, minInterval, id);
      }
    }
  }

  // ----- the other results, for the same runs -----

  ghost predicate Limited(key: string, checks: seq<Application>, id: string, bound: nat) {
    forall i :: 0 <= i < |checks| && EventId(checks[i].rule, key) == id ==> checks[i].rule.maxStep <= bound
  }

  ghost predicate StepsLimited(js: seq<Judgement>, id: string, bound: nat) {
    forall i :: 0 <= i < |js| && js[i].event.id == id ==> js[i].maxStep <= bound
  }

  /** The checks of a sample are further judgements of a run. */
  lemma {:induction false} ChecksAreJudgements(js: seq<Judgement>, history: seq<JudgeItem>, f: Feed,
                                               checks: seq<Application>, minInterval: int,
                                               id: string, bound: nat) returns (js': seq<Judgement>)
    requires Decreasing(history) && Judgeable(js) && StepsLimited(js, id, bound) && Limited(f.key, checks, id, bound)
    ensures Judgeable(js') && StepsLimited(js', id, bound)
    ensures RunJudgements(js', minInterval) == Checked(RunJudgements(js, minInterval), history, f, checks, minInterval)
  {
    js' := js;
    if checks != [] {
      var n := |checks| - 1;
      js' := ChecksAreJudgements(js, history, f, checks[..n], minInterval, id, bound);
      WindowProperties(history, Needed(checks[n].rule.fn));
      if IsEnough(history, Needed(checks[n].rule.fn)) {
        var before := js';
        js' := js' + [JudgementOf(history, f, checks[n])];
        assert js'[..|before|] == before;
      }
    }
  }

  lemma {:induction false} FeedsAreJudgements(feeds: seq<Feed>, remain: nat, minInterval: int, id: string, bound: nat)
    returns (js: seq<Judgement>)
    requires forall i :: 0 <= i < |feeds| ==> Limited(feeds[i].key, feeds[i].checks, id, bound)
    ensures Judgeable(js) && StepsLimited(js, id, bound)
    ensures RunJudgements(js, minInterval) == RunFeeds(feeds, remain, minInterval).alarms
  {
    js := [];
    if feeds != [] {
      var init, f := feeds[..|feeds| - 1], feeds[|feeds| - 1];
      js := FeedsAreJudgements(init, remain, minInterval, id, bound);
      var m := RunFeeds(init, remain, minInterval).histories;
      if Judges(m, f) {
        PushedMapDecreasing(m, f.key, f.item, remain);
        js := ChecksAreJudgements(js, PushedMap(m, f.key, f.item, remain)[f.key], f, f.checks, minInterval, id, bound);
      }
    }
  }

  /** In every such run the events of an id form episodes no longer than the limit of its rule. */
  lemma FeedsFormEpisodes(feeds: seq<Feed>, remain: nat, minInterval: int, id: string, bound: nat)
    returns (ks: seq<nat>, open: nat)
    requires bound >= 1 && forall i :: 0 <= i < |feeds| ==> Limited(feeds[i].key, feeds[i].checks, id, bound)
    ensures var a := RunFeeds(feeds, remain, minInterval).alarms;
            InEpisodes(Trace(a.log, id), LastOf(a.last, id), bound, ks, open)
  {
    var js := FeedsAreJudgements(feeds, remain, minInterval, id, bound);
    ks, open := EpisodeForm(js, minInterval, id, bound);
  }

  function Stream(feeds: seq<Feed>): (r: seq<(string, JudgeItem)>)
    ensures |r| == |feeds| && forall i :: 0 <= i < |r| ==> r[i] == (feeds[i].key, feeds[i].item)
  {
    seq(|feeds|, i requires 0 <= i < |feeds| => (feeds[i].key, feeds[i].item))
  }

  /** The histories of such a run are those of its samples alone: judging does not influence them. */
  lemma {:induction false} RunHistory(feeds: seq<Feed>, remain: nat, minInterval: int)
    ensures RunFeeds(feeds, remain, minInterval).histories == RunMap(Stream(feeds), remain)
  {
    if feeds != [] {
      var init, f := feeds[..|feeds| - 1], feeds[|feeds| - 1];
      RunHistory(init, remain, minInterval);
      assert Stream(feeds)[..|feeds| - 1] == Stream(init);
      var m := RunMap(Stream(init), remain);
      if !Judges(m, f) {
        assert PushedMap(m, f.key, f.item, remain) == m;
      }
    }
  }

  // ----- exactly when an event is sent -----

  function SentAs(j: Judgement, status: Status, step: int): Sent {
    Sent(j.event.(status := status, currentStep := step), j.window, j.now)
  }

  ghost predicate NewerThan(window: seq<HistoryPoint>, t: int) {
    forall i :: 0 <= i < |window| ==> t < window[i].ts
  }

  ghost predicate NewestFirst(window: seq<HistoryPoint>) {
    window != [] && forall i, k :: 0 <= i < k < |window| ==> window[k].ts < window[i].ts
  }

  /** What a judgement adds to the events of its id. Not triggered: one OK, if and only if the last event is a
      PROBLEM. Triggered with no open episode: PROBLEM 1, if and only if the step limit is not zero. Triggered with
      the episode at step k: PROBLEM k + 1, if and only if k is below the limit, every point of the window is newer
      than the last event, and the minimal interval has passed since. */
  ghost predicate Responds(before: seq<Sent>, after: seq<Sent>, j: Judgement, minInterval: int) {
    if !j.isTriggered then
      after == if EndsInProblem(before) then before + [SentAs(j, Ok, 1)] else before
    else if !EndsInProblem(before) then
      after == if j.maxStep != 0 then before + [SentAs(j, Problem, 1)] else before
    else
      var e := before[|before| - 1].event;
      after == if e.currentStep < j.maxStep && NewerThan(j.window, e.eventTime) && minInterval <= j.now - e.eventTime
               then before + [SentAs(j, Problem, e.currentStep + 1)]
               else before
  }

  predicate EndsInProblem(log: seq<Sent>) {
    log != [] && log[|log| - 1].event.status.Problem?
  }

  /** The event remembered for an id is the last one sent for it. */
  ghost predicate Remembers(a: Alarms, id: string) {
    LastOf(a.last, id) == LastSent(OfId(a.log, id))
  }

  lemma OldestDecides(window: seq<HistoryPoint>, t: int)
    requires NewestFirst(window)
    ensures NewerThan(window, t) <==> t < window[|window| - 1].ts
  {
  }

  function WithSent(own: seq<Sent>, d: Option<Event>, j: Judgement): seq<Sent> {
    match d
    case None => own
    case Some(e) => own + [Sent(e, j.window, j.now)]
  }

  /** The events of an id after a judgement for it. */
  lemma JudgedOfId(a: Alarms, j: Judgement, minInterval: int)
    requires j.window != []
    ensures OfId(Judged(a, j, minInterval).log, j.event.id) ==
            WithSent(OfId(a.log, j.event.id), Decide(LastOf(a.last, j.event.id), j, minInterval), j)
  {
    var d := Decide(LastOf(a.last, j.event.id), j, minInterval);
    if d.Some? {
      OfIdAppend(a.log, Sent(d.value, j.window, j.now), j.event.id);
    }
  }

  function LastSent(own: seq<Sent>): Option<Event> {
    if own == [] then None else Some(own[|own| - 1].event)
  }

  lemma DecideResponds(own: seq<Sent>, j: Judgement, minInterval: int)
    requires NewestFirst(j.window)
    ensures Responds(own, WithSent(own, Decide(LastSent(own), j, minInterval), j), j, minInterval)
  {
    if own != [] {
      OldestDecides(j.window, own[|own| - 1].event.eventTime);
    }
  }

  lemma JudgedResponds(a: Alarms, j: Judgement, minInterval: int)
    requires NewestFirst(j.window) && Remembers(a, j.event.id)
    ensures Responds(OfId(a.log, j.event.id), OfId(Judged(a, j, minInterval).log, j.event.id), j, minInterval)
  {
    JudgedOfId(a, j, minInterval);
    DecideResponds(OfId(a.log, j.event.id), j, minInterval);
  }

  lemma JudgedRemembers(a: Alarms, j: Judgement, minInterval: int, id: string)
    requires j.window != [] && Remembers(a, id)
    ensures Remembers(Judged(a, j, minInterval), id)
  {
    if j.event.id == id {
      JudgedOfId(a, j, minInterval);
    } else {
      JudgedOwn(a, j, minInterval, id);
    }
  }

  lemma {:induction false} RunRemembers(js: seq<Judgement>, minInterval: int, id: string)
    requires Judgeable(js)
    ensures Remembers(RunJudgements(js, minInterval), id)
  {
    if js != [] {
      RunRemembers(js[..|js| - 1], minInterval, id);
      JudgedRemembers(RunJudgements(js[..|js| - 1], minInterval), js[|js| - 1], minInterval, id);
    }
  }

  /** After any run, a judgement adds to the events of its id what is said above, and nothing to those of another. */
  lemma RunResponds(js: seq<Judgement>, j: Judgement, minInterval: int)
    requires Judgeable(js) && NewestFirst(j.window)
    ensures Judgeable(js + [j])
    ensures var log, log' := RunJudgements(js, minInterval).log, RunJudgements(js + [j], minInterval).log;
            && Responds(OfId(log, j.event.id), OfId(log', j.event.id), j, minInterval)
            && forall id :: id != j.event.id ==> OfId(log', id) == OfId(log, id)
  {
    assert (js + [j])[..|js|] == js;
    var a := RunJudgements(js, minInterval);
    RunRemembers(js, minInterval, j.event.id);
    JudgedResponds(a, j, minInterval);
    forall id | id != j.event.id ensures OfId(Judged(a, j, minInterval).log, id) == OfId(a.log, id) {
      JudgedOwn(a, j, minInterval, id);
    }
  }

  lemma {:induction false} ChecksRemember(a: Alarms, history: seq<JudgeItem>, f: Feed, checks: seq<Application>,
                                          minInterval: int, id: string)
    requires Decreasing(history) && Remembers(a, id)
    ensures Remembers(Checked(a, history, f, checks, minInterval), id)
  {
    if checks != [] {
      var n := |checks| - 1;
      ChecksRemember(a, history, f, checks[..n], minInterval, id);
      WindowProperties(history, Needed(checks[n].rule.fn));
      if IsEnough(history, Needed(checks[n].rule.fn)) {
        JudgedRemembers(Checked(a, history, f, checks[..n], minInterval), JudgementOf(history, f, checks[n]),
            minInterval, id);
      }
    }
  }

  lemma {:induction false} FeedsRemember(feeds: seq<Feed>, remain: nat, minInterval: int, id: string)
    ensures Remembers(RunFeeds(feeds, remain, minInterval).alarms, id)
  {
    if feeds != [] {
      var init, f := feeds[..|feeds| - 1], feeds[|feeds| - 1];
      FeedsRemember(init, remain, minInterval, id);
      var s := RunFeeds(init, remain, minInterval);
      if Judges(s.histories, f) {
        PushedMapDecreasing(s.histories, f.key, f.item, remain);
        ChecksRemember(s.alarms, PushedMap(s.histories, f.key, f.item, remain)[f.key], f, f.checks, minInterval, id);
      }
    }
  }

  /** A rule is judged by its function's own verdict on as many of the newest points as it reads, for the event id of
      key and rule, at the time of the sample. */
  lemma JudgementIs(history: seq<JudgeItem>, f: Feed, c: Application)
    requires Decreasing(history)
    ensures var j := JudgementOf(history, f, c);
            && j.window == Window(history, Needed(c.rule.fn)) && (j.isTriggered <==> Triggers(c.rule.fn, j.window))
            && j.now == f.now && j.maxStep == c.rule.maxStep
            && j.event.id == EventId(c.rule, f.key) && j.event.eventTime == f.item.ts
            && j.event.leftValue == c.leftValue
    ensures |Window(history, Needed(c.rule.fn))| == Needed(c.rule.fn) >= 1 ==>
              NewestFirst(JudgementOf(history, f, c).window)
  {
    WindowProperties(history, Needed(c.rule.fn));
  }

  /** What one rule does with the events of its id: nothing with fewer points than it reads, else what is said above. */
  ghost predicate RuleResponds(before: seq<Sent>, after: seq<Sent>, history: seq<JudgeItem>, f: Feed, c: Application,
                               minInterval: int)
    requires Decreasing(history)
  {
    if |Window(history, Needed(c.rule.fn))| == Needed(c.rule.fn) >= 1 then
      Responds(before, after, JudgementOf(history, f, c), minInterval)
    else after == before
  }

  lemma CheckedOneResponds(a: Alarms, history: seq<JudgeItem>, f: Feed, c: Application, minInterval: int, id: string)
    requires Decreasing(history) && Remembers(a, id) && id == EventId(c.rule, f.key)
    ensures RuleResponds(OfId(a.log, id), OfId(CheckedOne(a, history, f, c, minInterval).log, id), history, f, c,
                minInterval)
  {
    WindowProperties(history, Needed(c.rule.fn));
    if IsEnough(history, Needed(c.rule.fn)) {
      JudgementIs(history, f, c);
      JudgedResponds(a, JudgementOf(history, f, c), minInterval);
    }
  }

  /** The last check responds to what the id's events were before all checks. */
  lemma LastCheckResponds(a: Alarms, history: seq<JudgeItem>, f: Feed, checks: seq<Application>, minInterval: int,
                          id: string)
    requires Decreasing(history) && DistinctRules(checks) && checks != []
    requires id == EventId(checks[|checks| - 1].rule, f.key) && Remembers(a, id)
    ensures RuleResponds(OfId(a.log, id), OfId(Checked(a, history, f, checks, minInterval).log, id), history, f,
                checks[|checks| - 1], minInterval)
  {
    var n := |checks| - 1;
    OthersForeign(f.key, checks);
    ForeignChecks(a, history, f, checks[..n], minInterval, id);
    ChecksRemember(a, history, f, checks[..n], minInterval, id);
    CheckedOneResponds(Checked(a, history, f, checks[..n], minInterval), history, f, checks[n], minInterval, id);
  }

  /** Checking in two parts. */
  lemma {:induction false} CheckedSplit(a: Alarms, history: seq<JudgeItem>, f: Feed, p: seq<Application>,
                                        q: seq<Application>, minInterval: int)
    requires Decreasing(history)
    ensures Checked(a, history, f, p + q, minInterval) ==
            Checked(Checked(a, history, f, p, minInterval), history, f, q, minInterval)
    decreases |q|
  {
    if q == [] {
      assert p + q == p;
    } else {
      assert (p + q)[..|p + q| - 1] == p + q[..|q| - 1];
      CheckedSplit(a, history, f, p, q[..|q| - 1], minInterval);
    }
  }

  lemma LaterForeign(key: string, checks: seq<Application>, i: nat)
    requires DistinctRules(checks) && i < |checks|
    ensures Foreign(key, checks[i + 1..], EventId(checks[i].rule, key))
  {
    forall k | i < k < |checks| ensures EventId(checks[k].rule, key) != EventId(checks[i].rule, key) {
      if EventId(checks[k].rule, key) == EventId(checks[i].rule, key) {
        EventIdInjective(checks[k].rule, key, checks[i].rule, key);
      }
    }
  }

  lemma ChecksRespond(a: Alarms, history: seq<JudgeItem>, f: Feed, checks: seq<Application>, minInterval: int, i: nat,
                      id: string)
    requires Decreasing(history) && DistinctRules(checks) && i < |checks|
    requires id == EventId(checks[i].rule, f.key) && Remembers(a, id)
    ensures RuleResponds(OfId(a.log, id), OfId(Checked(a, history, f, checks, minInterval).log, id), history, f,
                checks[i], minInterval)
  {
    var p, q := checks[..i + 1], checks[i + 1..];
    assert p + q == checks;
    LastCheckResponds(a, history, f, p, minInterval, id);
    LaterForeign(f.key, checks, i);
    CheckedSplit(a, history, f, p, q, minInterval);
    ForeignChecks(Checked(a, history, f, p, minInterval), history, f, q, minInterval, id);
  }

  /** In every run, for each rule of an arriving sample: when the sample is a new high of its key, the rule does with
      the events of its id what is said above, on the key's history with the sample; otherwise nothing. */
  lemma FeedResponds(feeds: seq<Feed>, f: Feed, remain: nat, minInterval: int, i: nat)
    requires remain >= 1 && DistinctRules(f.checks) && i < |f.checks|
    ensures var own := SamplesOf(Stream(feeds), f.key);
            var log, log' := RunFeeds(feeds, remain, minInterval).alarms.log,
                             RunFeeds(feeds + [f], remain, minInterval).alarms.log;
            var id := EventId(f.checks[i].rule, f.key);
            && Decreasing(Run(own + [f.item], remain))
            && if NewHigh(own, f.item) then
                 RuleResponds(OfId(log, id), OfId(log', id), Run(own + [f.item], remain), f, f.checks[i], minInterval)
               else OfId(log', id) == OfId(log, id)
  {
    assert (feeds + [f])[..|feeds|] == feeds;
    var own, s := SamplesOf(Stream(feeds), f.key), RunFeeds(feeds, remain, minInterval);
    RunHistory(feeds, remain, minInterval);
    KeysAreIndependent(Stream(feeds), remain, f.key);
    FrontIsHigh(own, remain, f.item);
    HistoryIsRecentAccepted(own + [f.item], remain);
    RunAppend(own, f.item, remain);
    assert Judges(s.histories, f) <==> NewHigh(own, f.item);
    if Judges(s.histories, f) {
      FeedsRemember(feeds, remain, minInterval, EventId(f.checks[i].rule, f.key));
      FirstHistory(own, f.item, remain);
      assert PushedMap(s.histories, f.key, f.item, remain)[f.key] == Run(own + [f.item], remain);
      ChecksRespond(s.alarms, Run(own + [f.item], remain), f, f.checks, minInterval, i,
          EventId(f.checks[i].rule, f.key));
    }
  }

  /** A sample sends nothing for an event id that none of its rules is for. */
  lemma FeedLeavesOthers(feeds: seq<Feed>, f: Feed, remain: nat, minInterval: int, id: string)
    requires Foreign(f.key, f.checks, id)
    ensures OfId(RunFeeds(feeds + [f], remain, minInterval).alarms.log, id) ==
            OfId(RunFeeds(feeds, remain, minInterval).alarms.log, id)
  {
    assert (feeds + [f])[..|feeds|] == feeds;
    var s := RunFeeds(feeds, remain, minInterval);
    if Judges(s.histories, f) {
      PushedMapDecreasing(s.histories, f.key, f.item, remain);
      ForeignChecks(s.alarms, PushedMap(s.histories, f.key, f.item, remain)[f.key], f, f.checks, minInterval, id);
    }
  }

  /** The trace of an id is the status and step of its events. */
  lemma {:induction false} TraceIsOfId(log: seq<Sent>, id: string)
    ensures var own, trace := OfId(log, id), Trace(log, id);
            && |trace| == |own|
            && forall i :: 0 <= i < |own| ==> trace[i] == (own[i].event.status, own[i].event.currentStep)
  {
    if log != [] {
      TraceIsOfId(log[..|log| - 1], id);
    }
  }

  lemma FirstHistory(own: seq<JudgeItem>, v: JudgeItem, remain: nat)
    requires remain >= 1
    ensures own == [] ==> Run(own + [v], remain) == [v]
  {
    RunAppend(own, v, remain);
    assert own == [] ==> [v] + Run(own, remain) == [v];
  }
}
