/**
 What each call leaves behind, field by field: the records it logs, the links, marks and last states
 it changes.  Nothing here is said in terms of the functions that define the calls.
 */
module CpaEffects {
  import opened CpaRecords
  import opened CpaQueues
  import opened CpaTables
  import opened CpaSpec
  import opened CpaInvariant
  import opened CpaSteps
  import opened CpaCalls

  /** A record in the log as the annotation file will show it. */
  predicate Shows(r: AnnotateData, now: int, op: nat, flag: nat, cpuid: nat, sm: nat, stq: nat, count: int) {
    && r.time == now && r.op == op && r.flag == flag % 256 && r.cpu == cpuid % 256
    && r.sm == sm && r.stq == stq % 0x1_0000 && r.data == count && r.origData == count && r.dump
  }

  /** The machine a link into smi comes from, 0 for none. */
  function LinkInto(s: Core, smi: nat): nat {
    if smi in s.lnMap then s.lnMap[smi] else 0
  }

  function LastOf(s: Core, smi: nat): nat {
    if smi in s.lastState then s.lastState[smi] else 0
  }

  predicate Marked(s: Core, sid: StackId) {
    sid in s.swExpl && s.swExpl[sid]
  }

  ghost predicate OtherLinks(s: Core, s': Core, smi: nat) {
    forall m :: m != smi ==> LinkInto(s', m) == LinkInto(s, m)
  }

  ghost predicate OtherMarks(s: Core, s': Core, sid: StackId) {
    forall o :: o != sid ==> Marked(s', o) == Marked(s, o)
  }

  ghost predicate OtherLasts(s: Core, s': Core, smi: nat) {
    forall m :: m != smi ==> LastOf(s', m) == LastOf(s, m)
  }

  // ----- Ending a machine -----

  lemma UnlinkedLeaves(s: Core, smi: nat, cpuid: nat)
    ensures var s' := Unlinked(s, smi, cpuid);
      var linked := LinkInto(s, smi) != 0;
      && LinkInto(s', smi) == 0 && OtherLinks(s, s', smi) && s'.lastState == s.lastState && s'.swExpl == s.swExpl
      && s'.now == s.now && s.heap <= s'.heap && |s'.heap| == |s.heap| + (if linked then 1 else 0)
      && (linked ==> Shows(s'.heap[|s.heap|], s.now, OP_LINK, 0, cpuid, smi, LinkInto(s, smi), 0))
  {
  }

  lemma ResumedLeaves(s: Core, smi: nat, cpuid: nat)
    ensures var s' := Resumed(s, smi, cpuid);
      && s'.lnMap == s.lnMap && LastOf(s', smi) == LastOf(s, smi) && OtherLasts(s, s', smi) && s'.swExpl == s.swExpl
      && s.heap <= s'.heap && |s'.heap| == |s.heap| + 1
      && Shows(s'.heap[|s.heap|], s.now, OP_BEGIN, 0, cpuid, smi, LastOf(s, smi), 0)
  {
  }

  lemma TopEndsLeaves(s: Core, sid: StackId, sm: string, cpuid: nat)
    requires Stack(s, sid) != []
    ensures var top := Top(s, sid);
      var s' := TopEnds(s, sid, sm, cpuid);
      var named := SmName(s, top) == sm;
      var linked := LinkInto(s, top) != 0;
      var more := |Stack(s, sid)| > 1;
      && s.heap <= s'.heap && OtherLinks(s, s', top) && OtherLasts(s, s', top) && s'.swExpl == s.swExpl
      && LastOf(s', top) == LastOf(s, top)
      && (!named ==> s' == s)
      && (named ==>
            && LinkInto(s', top) == 0
            && |s'.heap| == |s.heap| + (if linked then 1 else 0) + (if more then 1 else 0)
            && (linked ==> Shows(s'.heap[|s.heap|], s.now, OP_LINK, 0, cpuid, top, LinkInto(s, top), 0))
            && (more ==> Shows(s'.heap[|s'.heap| - 1], s.now, OP_BEGIN, 0, cpuid, top, LastOf(s, top), 0)))
  {
    hide Unlinked, Resumed, SmName, Shows;
    var stack, top := Stack(s, sid), Top(s, sid);
    var s1 := s.(smStack := s.smStack[sid := stack[..|stack| - 1]]);
    var s2 := Unlinked(s1, top, cpuid);
    var s3 := Resumed(s2, top, cpuid);
    UnlinkedLeaves(s1, top, cpuid);
    ResumedLeaves(s2, top, cpuid);
    forall m | m != top ensures LinkInto(s2, m) == LinkInto(s, m) == LinkInto(s3, m) {
      assert LinkInto(s2, m) == LinkInto(s1, m);
    }
    forall m | m != top ensures LastOf(s2, m) == LastOf(s, m) == LastOf(s3, m) {
      assert LastOf(s3, m) == LastOf(s2, m);
    }
  }

  /**
   Ending the machine on top: its link is forgotten and no other, the way back is logged first if there
   was one, and its last state again if machines remain below.  Any other name changes nothing.
   */
  lemma EndLeaves(s: Core, sys: System, cpuid: nat, sm: string, frame: nat)
    requires CoreOk(s) && Stack(s, Thread(s, sys, frame)) != []
    ensures SmEnds(s, sys, cpuid, sm, frame).Goes?
    ensures var sid := Thread(s, sys, frame);
      var top := Top(s, sid);
      var s' := SmEnds(s, sys, cpuid, sm, frame).s;
      var named := SmName(s, top) == sm;
      var linked := named && LinkInto(s, top) != 0;
      var more := named && |Stack(s, sid)| > 1;
      && s.heap <= s'.heap && OtherLinks(s, s', top) && OtherLasts(s, s', top) && LastOf(s', top) == LastOf(s, top)
      && !Marked(s', sid) && OtherMarks(s, s', sid)
      && LinkInto(s', top) == (if named then 0 else LinkInto(s, top))
      && |s'.heap| == |s.heap| + (if linked then 1 else 0) + (if more then 1 else 0)
      && (linked ==> Shows(s'.heap[|s.heap|], s.now, OP_LINK, 0, cpuid, top, LinkInto(s, top), 0))
      && (more ==> Shows(s'.heap[|s'.heap| - 1], s.now, OP_BEGIN, 0, cpuid, top, LastOf(s, top), 0))
  {
    hide Inv, KnowSys, SysId, TopEnds, Steady, Shows;
    KnowSysSteady(s, sys);
    KnowSysOnly(s, sys);
    var s1 := KnowSys(s, sys);
    var sid := Thread(s, sys, frame);
    var s2 := WithStack(s1.(swExpl := s1.swExpl[sid := false]), sid);
    SameNameAfter(s, sys, Top(s, sid));
    TopEndsLeaves(s2, sid, sm, cpuid);
  }

  lemma SameNameAfter(s: Core, sys: System, smi: nat)
    ensures SmName(KnowSys(s, sys), smi) == SmName(s, smi)
  {
  }

  // ----- Beginning one -----

  /** The number that the state of a machine type has afterwards. */
  lemma EnteredLeaves(s: Core, sm: string, state: string, flag: nat, cpuid: nat, smi: nat, always: bool)
    requires CoreOk(s)
    ensures var s' := Entered(s, sm, state, flag, cpuid, smi, always);
      var sti := StId(s', sm, state);
      var logs := always || smi !in s.lastState || s.lastState[smi] != sti;
      && sti != 0 && LastOf(s', smi) == sti && OtherLasts(s, s', smi)
      && s'.lnMap == s.lnMap && s'.swExpl == s.swExpl && s'.smStack == s.smStack && s'.scLinks == s.scLinks
      && s.heap <= s'.heap && |s'.heap| == |s.heap| + (if logs then 1 else 0)
      && (logs ==> Shows(s'.heap[|s.heap|], s.now, OP_BEGIN, flag, cpuid, smi, sti, 0))
  {
    hide Inv, Steady, KnowSt, StId;
    KnowStSteady(s, sm, state);
    var s1 := KnowSt(s, sm, state);
    SameStId(s1, Entered(s, sm, state, flag, cpuid, smi, always), sm, state);
  }

  lemma SameStId(s: Core, s': Core, sm: string, st: string)
    requires s'.t == s.t
    ensures StId(s', sm, st) == StId(s, sm, st)
  {
  }

  lemma JoinLeaves(s: Core, sid: StackId, smi: nat, cpuid: nat, link: bool)
    requires CoreOk(s) && JoinStack(s, sid, smi, cpuid, link).Goes?
    ensures var s' := JoinStack(s, sid, smi, cpuid, link).s;
      var linked := link && Stack(s, sid) != [];
      && LinkInto(s', smi) == (if linked then Top(s, sid) else LinkInto(s, smi)) && OtherLinks(s, s', smi)
      && s'.lastState == s.lastState && !Marked(s', sid) && OtherMarks(s, s', sid)
      && s.heap <= s'.heap && |s'.heap| == |s.heap| + (if linked then 1 else 0)
      && (linked ==> Shows(s'.heap[|s.heap|], s.now, OP_LINK, 0, cpuid, Top(s, sid), smi, 0))
      && s'.now == s.now && s'.conId == s.conId
  {
    hide Inv;
  }

  lemma ResolvedLeaves(s: Core, sysi: nat, id: Id, smi: nat)
    requires CoreOk(s) && 1 <= sysi <= s.t.numSys && |s.scLinks| == s.t.numSys && Resolved(s, sysi, id, smi).Goes?
    ensures var s' := Resolved(s, sysi, id, smi).s;
      && (id in s.scLinks[sysi - 1] ==>
            s.scLinks[sysi - 1][id] < |s.heap| && LinkInto(s', smi) == s.heap[s.scLinks[sysi - 1][id]].sm)
      && (id !in s.scLinks[sysi - 1] ==> s' == s)
      && OtherLinks(s, s', smi) && s'.lastState == s.lastState && s'.swExpl == s.swExpl && s'.now == s.now
      && |s'.heap| == |s.heap| && s'.smStack == s.smStack && s'.t == s.t
      && (forall p :: 0 <= p < |s.heap| && !(id in s.scLinks[sysi - 1] && s.scLinks[sysi - 1][id] == p) ==>
            s'.heap[p] == s.heap[p])
  {
    hide Inv;
  }

  /**
   Beginning a machine: linked from the machine on top if asked, and then that link is logged; a link
   held for it becomes its link; its first state, if any, is logged last.  Nothing else is logged, and
   links, marks and last states of all others stay.
   */
  lemma BeginLeaves(s: Core, sys: System, frame: nat, cpuid: nat, sm: string, context: nat, link: bool, state: string)
    requires CoreOk(s) && SmBegins(s, sys, frame, cpuid, sm, context, link, state).Goes?
    ensures var sid := Thread(s, sys, frame);
      var links := KnowSys(s, sys).scLinks;
      var smi := NumberOf(KnowSys(s, sys), sid.sys, Id(sm, context));
      var s' := SmBegins(s, sys, frame, cpuid, sm, context, link, state).s;
      var linked := link && Stack(s, sid) != [];
      var id := Id(sm, frame);
      var sti := StId(s', sm, state);
      && 1 <= sid.sys <= |links|
      && (linked ==> LinkInto(s', smi) == Top(s, sid))
      && (id in links[sid.sys - 1] ==>
            links[sid.sys - 1][id] < |s.heap| && LinkInto(s', smi) == s.heap[links[sid.sys - 1][id]].sm)
      && (!linked && id !in links[sid.sys - 1] ==> LinkInto(s', smi) == LinkInto(s, smi))
      && OtherLinks(s, s', smi) && OtherLasts(s, s', smi) && !Marked(s', sid) && OtherMarks(s, s', sid)
      && LastOf(s', smi) == (if state == "" then LastOf(s, smi) else sti)
      && |s'.heap| == |s.heap| + (if linked then 1 else 0) + (if state != "" then 1 else 0)
      && (linked ==> Shows(s'.heap[|s.heap|], s.now, OP_LINK, 0, cpuid, Top(s, sid), smi, 0))
      && (state != "" ==> Shows(s'.heap[|s'.heap| - 1], s.now, OP_BEGIN, 0, cpuid, smi, sti, 0))
  {
    hide Inv, Steady, KnowSys, KnowSm, SmId, JoinStack, Resolved, Entered, SysId, NumberOf, Shows, StId;
    var s1, s2, s3 := BeginSteps(s, sys, frame, cpuid, sm, context, link, state);
    KnowSysOnly(s, sys);
    var sid := StackId(SysId(s1, sys), frame);
    var id, smi := Id(sm, frame), NumberOf(s1, sid.sys, Id(sm, context));
    JoinLeaves(s2, sid, smi, cpuid, link);
    ResolvedLeaves(s3, sid.sys, id, smi);
    ResolvedSteady(s3, sid.sys, id, smi);
    var s4 := Resolved(s3, sid.sys, id, smi).s;
    SteadyOk(s3, s4, true);
    HeldStays(s1, s3, sid.sys, id);
    if Stack(s, sid) != [] { TopKnown(s, sid); }
    assert s4.now == s.now && SmBegins(s, sys, frame, cpuid, sm, context, link, state)
           == Goes(if state == "" then s4 else Entered(s4, sm, state, 0, cpuid, smi, true));
    ResolvedGoes(s3, sid.sys, id, smi);
    var linked := link && Stack(s, sid) != [];
    assert LinkInto(s4, smi) == LinkInto(s3, smi) || id in s1.scLinks[sid.sys - 1];
    assert linked ==> s4.heap[|s.heap|] == s3.heap[|s.heap|];
    LinksThrough(s, s2, s3, s4, smi);
    hide OtherLinks, OtherMarks;
    MarksThrough(s, s2, s3, s4, sid);
    assert s4.lastState == s.lastState;
    assert linked ==> id !in s1.scLinks[sid.sys - 1];
    if state != "" { EnteredLeaves(s4, sm, state, 0, cpuid, smi, true); }
  }

  lemma LinksThrough(s: Core, s2: Core, s3: Core, s4: Core, smi: nat)
    requires s2.lnMap == s.lnMap && OtherLinks(s2, s3, smi) && OtherLinks(s3, s4, smi)
    ensures OtherLinks(s, s4, smi)
  {
    forall m | m != smi ensures LinkInto(s4, m) == LinkInto(s, m) { assert LinkInto(s3, m) == LinkInto(s2, m); }
  }

  lemma MarksThrough(s: Core, s2: Core, s3: Core, s4: Core, sid: StackId)
    requires s2.swExpl == s.swExpl && OtherMarks(s2, s3, sid) && s4.swExpl == s3.swExpl
    ensures OtherMarks(s, s4, sid) && Marked(s4, sid) == Marked(s3, sid)
  {
    forall o | o != sid ensures Marked(s4, o) == Marked(s, o) { assert Marked(s3, o) == Marked(s2, o); }
  }

  /** A record held before is the same after others have been logged. */
  lemma HeldStays(s: Core, s': Core, x: nat, id: Id)
    requires CoreOk(s) && 1 <= x <= |s.scLinks| && s.heap <= s'.heap
    ensures id in s.scLinks[x - 1] ==>
      var p := s.scLinks[x - 1][id];
      p < |s.heap| && p < |s'.heap| && s'.heap[p] == s.heap[p] && Awaiting(s.heap[p])
  {
    hide Inv, Awaiting;
    if id in s.scLinks[x - 1] { HeldInHeap(s, x, id, s.scLinks[x - 1][id]); }
  }

  /** A machine that has begun and ended: the stack as it was, its number known, and no link to it or held for it. */
  lemma BegunAndEnded(s: Core, sys: System, frame: nat, cpuid: nat, sm: string, context: nat, link: bool, state: string)
    returns (s1: Core, s2: Core)
    requires CoreOk(s) && SmBegins(s, sys, frame, cpuid, sm, context, link, state).Goes?
    ensures SmBegins(s, sys, frame, cpuid, sm, context, link, state) == Goes(s1)
    ensures SmEnds(s1, sys, cpuid, sm, frame) == Goes(s2) && CoreOk(s2)
    ensures var sid := Thread(s, sys, frame);
      && KnowSys(s2, sys) == s2 && Thread(s2, sys, frame) == sid && Stack(s2, sid) == Stack(s, sid)
      && NumberOf(s2, sid.sys, Id(sm, context)) < MAX_IDS && Free(s2, NumberOf(s2, sid.sys, Id(sm, context)))
      && 1 <= sid.sys <= |s2.scLinks| && Id(sm, frame) !in s2.scLinks[sid.sys - 1]
  {
    hide Inv, Steady, SmBegins, SmEnds, KnowSys, SysId, SmName, NumberOf, Release, Shows, OtherStacks, OtherLinks;
    hide OtherLasts, OtherMarks, Extends;
    BeginPushes(s, sys, frame, cpuid, sm, context, link, state);
    BeginResolves(s, sys, frame, cpuid, sm, context, link, state);
    SmBeginsSteady(s, sys, frame, cpuid, sm, context, link, state);
    s1 := SmBegins(s, sys, frame, cpuid, sm, context, link, state).s;
    SteadyOk(s, s1, true);
    var sid := Thread(s, sys, frame);
    EndPops(s1, sys, cpuid, sm, frame);
    EndLeaves(s1, sys, cpuid, sm, frame);
    SmEndsSteady(s1, sys, cpuid, sm, frame);
    s2 := SmEnds(s1, sys, cpuid, sm, frame).s;
    SteadyOk(s1, s2, true);
    StillNumbered(s, sys, frame, cpuid, sm, context, link, state);
    EndTables(s1, sys, cpuid, sm, frame);
    SameNumber(s1, s2, sid.sys, Id(sm, context));
    SameThread(s1, s2, sys);
    ReleasedGone(KnowSys(s, sys).scLinks, sid.sys - 1, Id(sm, frame));
  }

  /** The same call again after the machine has ended goes on, whenever it went on the first time. */
  lemma BeginEndBegin(s: Core, sys: System, frame: nat, cpuid: nat, sm: string, context: nat, link: bool, state: string)
    requires CoreOk(s) && SmBegins(s, sys, frame, cpuid, sm, context, link, state).Goes?
    ensures var s1 := SmBegins(s, sys, frame, cpuid, sm, context, link, state).s;
      && SmEnds(s1, sys, cpuid, sm, frame).Goes?
      && SmBegins(SmEnds(s1, sys, cpuid, sm, frame).s, sys, frame, cpuid, sm, context, link, state).Goes?
  {
    hide Inv, SmBegins, SmEnds, KnowSys, SysId, NumberOf;
    var s1, s2 := BegunAndEnded(s, sys, frame, cpuid, sm, context, link, state);
    BeginGoesIff(s2, sys, frame, cpuid, sm, context, link, state);
  }

  lemma ReleasedGone(scLinks: seq<map<Id, Pointer>>, x: nat, id: Id)
    requires x < |scLinks|
    ensures |Release(scLinks, x, id)| == |scLinks| && id !in Release(scLinks, x, id)[x]
  {
  }

  /** A machine that has begun has its number from then on. */
  lemma StillNumbered(s: Core, sys: System, frame: nat, cpuid: nat, sm: string, context: nat, link: bool, state: string)
    requires CoreOk(s) && SmBegins(s, sys, frame, cpuid, sm, context, link, state).Goes?
    ensures var s' := SmBegins(s, sys, frame, cpuid, sm, context, link, state).s;
      var sid := Thread(s, sys, frame);
      && sys in s'.t.nameCache && KnowSys(s', sys) == s'
      && NumberOf(s', sid.sys, Id(sm, context)) == NumberOf(KnowSys(s, sys), sid.sys, Id(sm, context)) < MAX_IDS
  {
    hide Inv, Steady, KnowSys, KnowSm, JoinStack, Resolved, SysId, NumberOf, KnowSt, OtherStacks;
    var id := Id(sm, context);
    var s1, s2, s3 := BeginSteps(s, sys, frame, cpuid, sm, context, link, state);
    var sysi := SysId(s1, sys);
    var smi := NumberOf(s1, sysi, id);
    ArriveGoes(s3, sysi, Id(sm, frame), smi, cpuid, state);
    var s4 := Resolved(s3, sysi, Id(sm, frame), smi).s;
    ResolvedSteady(s3, sysi, Id(sm, frame), smi);
    SteadyOk(s3, s4, true);
    var s' := SmBegins(s, sys, frame, cpuid, sm, context, link, state).s;
    NumberPositive(s1, sysi, id);
    NumberKeeps(s2, s4, sysi, id, sm, state);
    SameNumber(if state == "" then s4 else KnowSt(s4, sm, state), s', sysi, id);
    SameThread(s1, s', sys);
  }

  lemma NumberPositive(s: Core, sysi: nat, id: Id)
    ensures NumberOf(s, sysi, id) != 0
  {
  }

  lemma NumberKeeps(s: Core, s4: Core, sysi: nat, id: Id, sm: string, state: string)
    requires CoreOk(s4) && s4.t == s.t && SmId(s, sysi, id) != 0
    ensures NumberOf(s4, sysi, id) == SmId(s, sysi, id)
    ensures NumberOf(KnowSt(s4, sm, state), sysi, id) == SmId(s, sysi, id)
  {
    hide Inv, TablesOk;
    Shape(s4);
    SameCaches(s4.t, sm, state);
  }

  lemma SameCaches(t: Tables, sm: string, st: string)
    requires StatesOk(t)
    ensures var u := InternSt(t, sm, st); u.smCache == t.smCache && u.qCache == t.qCache && u.numQ == t.numQ
  {
    hide StatesOk;
  }

  lemma EndTables(s: Core, sys: System, cpuid: nat, sm: string, frame: nat)
    requires CoreOk(s) && KnowSys(s, sys) == s && SmEnds(s, sys, cpuid, sm, frame).Goes?
    ensures SmEnds(s, sys, cpuid, sm, frame).s.t == s.t
  {
    hide KnowSys, SysId, Inv;
  }

  // ----- States -----

  /** The machine on top of a thread's stack, and the name of its type. */
  function Runs(s: Core, sys: System, frame: nat): nat
    requires Stack(s, Thread(s, sys, frame)) != []
  {
    Top(s, Thread(s, sys, frame))
  }

  /**
   A state for the running machine.  A symbol does nothing while an explicit state is on; otherwise the
   state becomes the machine's last one and is logged with its flags, once until it changes.
   */
  lemma StateLeaves(s: Core, sys: System, cpuid: nat, state: string, frame: nat, expl: bool, flag: nat)
    requires CoreOk(s) && !Ignored(state) && Stack(s, Thread(s, sys, frame)) != []
    ensures var sid := Thread(s, sys, frame);
      var top := Runs(s, sys, frame);
      var s' := Begins(s, sys, cpuid, state, frame, expl, flag);
      var sti := StId(s', SmName(s, top), state);
      var enters := expl || !Marked(s, sid);
      var logs := enters && (top !in s.lastState || s.lastState[top] != sti);
      && Marked(s', sid) == (expl || Marked(s, sid)) && OtherMarks(s, s', sid)
      && s'.lnMap == s.lnMap && OtherLasts(s, s', top)
      && LastOf(s', top) == (if enters then sti else LastOf(s, top)) && (enters ==> sti != 0)
      && s.heap <= s'.heap && |s'.heap| == |s.heap| + (if logs then 1 else 0)
      && (logs ==> Shows(s'.heap[|s.heap|], s.now, OP_BEGIN, flag, cpuid, top, sti, 0))
  {
    hide Inv, Steady, KnowSys, SysId, Entered, SmName, Ignored, Shows, StId;
    KnowSysOnly(s, sys);
    var s1, sid, s2 := ThreadSteady(s, sys, frame, false);
    var was := Marked(s2, sid);
    var s3 := s2.(swExpl := s2.swExpl[sid := expl || was]);
    SameStoreSteady(s2, s3);
    SteadyOk(s2, s3, true);
    SameNameAfter(s, sys, Top(s3, sid));
    SameSmName(s1, s3, Top(s3, sid));
    if expl || !was {
      EnteredLeaves(s3, SmName(s3, Top(s3, sid)), state, flag, cpuid, Top(s3, sid), false);
    }
  }

  lemma SameSmName(s: Core, s': Core, smi: nat)
    requires s'.t == s.t
    ensures SmName(s', smi) == SmName(s, smi)
  {
  }

  /** The end of explicit states: symbols count again, and the caller's is entered and always logged. */
  lemma StateEndLeaves(s: Core, sys: System, cpuid: nat, state: string, frame: nat)
    requires CoreOk(s) && Stack(s, Thread(s, sys, frame)) != []
    ensures var sid := Thread(s, sys, frame);
      var top := Runs(s, sys, frame);
      var s' := StateEnds(s, sys, cpuid, state, frame);
      var sti := StId(s', SmName(s, top), state);
      && !Marked(s', sid) && OtherMarks(s, s', sid) && s'.lnMap == s.lnMap && OtherLasts(s, s', top)
      && LastOf(s', top) == (if state == "" then LastOf(s, top) else sti)
      && s.heap <= s'.heap && |s'.heap| == |s.heap| + (if state == "" then 0 else 1)
      && (state != "" ==> Shows(s'.heap[|s.heap|], s.now, OP_BEGIN, 0, cpuid, top, sti, 0))
  {
    hide Inv, Steady, KnowSys, SysId, Entered, SmName, Shows, StId;
    KnowSysOnly(s, sys);
    var s1, sid, s2 := ThreadSteady(s, sys, frame, false);
    var s3 := s2.(swExpl := s2.swExpl[sid := false]);
    SameStoreSteady(s2, s3);
    SteadyOk(s2, s3, true);
    SameNameAfter(s, sys, Top(s3, sid));
    SameSmName(s1, s3, Top(s3, sid));
    if state != "" { EnteredLeaves(s3, SmName(s3, Top(s3, sid)), state, 0, cpuid, Top(s3, sid), true); }
  }

  /** A hardware state: one record, marked as hardware, of processor 0. */
  lemma HwStateLeaves(s: Core, flag: nat, sys: System, frame: nat, sm: string, state: string)
    requires CoreOk(s) && HwBegins(s, flag, sys, frame, sm, state).Goes?
    ensures var s' := HwBegins(s, flag, sys, frame, sm, state).s;
      var smi := NumberOf(KnowSys(s, sys), Thread(s, sys, frame).sys, Id(sm, frame));
      && s'.lnMap == s.lnMap && s'.lastState == s.lastState && s'.swExpl == s.swExpl && s'.smStack == s.smStack
      && s.heap <= s'.heap && |s'.heap| == |s.heap| + 1 && StId(s', sm, state) != 0
      && Shows(s'.heap[|s.heap|], s.now, OP_BEGIN, s'.heap[|s.heap|].flag, 0, smi, StId(s', sm, state), 0)
      && s'.heap[|s.heap|].flag % 2 == 1 && s'.heap[|s.heap|].flag / 2 == flag % 256 / 2
  {
    hide Inv, Steady, KnowSys, SysId, KnowSm, NumberOf, KnowSt, StId, SmId;
    KnowSysSteady(s, sys);
    KnowSysOnly(s, sys);
    var s1 := KnowSys(s, sys);
    SteadyOk(s, s1, true);
    var sysi, id := SysId(s1, sys), Id(sm, frame);
    KnowSmGoes(s1, sysi, id);
    KnowSmSteady(s1, sysi, id);
    var s2 := KnowSm(s1, sysi, id).s;
    SteadyOk(s1, s2, true);
    KnowStSteady(s2, sm, state);
    var s3 := KnowSt(s2, sm, state);
    SameSmId(s2, sm, state, sysi, id);
    var s' := HwBegins(s, flag, sys, frame, sm, state).s;
    SameStId(s3, s', sm, state);
    hide Hardware;
    FlagShown(s'.heap[|s.heap|], s.now, OP_BEGIN, flag, SmId(s2, sysi, id), StId(s3, sm, state), 0);
  }

  lemma SameSmId(s: Core, sm: string, st: string, sysi: nat, id: Id)
    requires CoreOk(s)
    ensures SmId(KnowSt(s, sm, st), sysi, id) == SmId(s, sysi, id)
  {
    hide Inv, TablesOk;
    Shape(s);
    SameCaches(s.t, sm, st);
  }

  /** Only the lowest flag is set in addition. */
  lemma HardwareBit(flag: nat)
    ensures Hardware(flag) % 256 % 2 == 1 && Hardware(flag) % 256 / 2 == flag % 256 / 2
  {
    var q, r, b := flag / 256, flag % 256 / 2, flag % 2;
    assert flag == 256 * q + 2 * r + b;
    OddByte(q, r);
  }

  lemma OddByte(q: nat, r: nat)
    requires r < 128
    ensures (256 * q + 2 * r + 1) % 256 == 2 * r + 1
  {
  }

  // ----- Links, numbers and queues -----

  /** A link from the running machine: logged, and remembered as the only link into the other. */
  lemma LinkLeaves(s: Core, sys: System, cpuid: nat, frame: nat, lsm: string, context: nat)
    requires CoreOk(s) && Stack(s, Thread(s, sys, frame)) != []
    requires Links(s, sys, cpuid, frame, lsm, context, false, "").Goes?
    ensures var sid := Thread(s, sys, frame);
      var top := Runs(s, sys, frame);
      var lsmi := NumberOf(KnowSys(s, sys), sid.sys, Id(lsm, context));
      var s' := Links(s, sys, cpuid, frame, lsm, context, false, "").s;
      && LinkInto(s, lsmi) == 0 && LinkInto(s', lsmi) == top && OtherLinks(s, s', lsmi)
      && s'.lastState == s.lastState && s'.swExpl == s.swExpl && Stack(s', sid) == Stack(s, sid)
      && s.heap <= s'.heap && |s'.heap| == |s.heap| + 1
      && Shows(s'.heap[|s.heap|], s.now, OP_LINK, 0, cpuid, top, lsmi, 0)
  {
    hide Inv, Steady, KnowSys, SysId, KnowSm, SmId, NumberOf;
    KnowSysOnly(s, sys);
    var s1, sid, s2 := ThreadSteady(s, sys, frame, false);
    SteadyOk(s, s2, true);
    KnowSmGoes(s2, sid.sys, Id(lsm, context));
    SameNumber(s1, s2, sid.sys, Id(lsm, context));
  }

  /** A link or a wait that also ends a machine is the one without, and then the end. */
  lemma LinkThenEnds(s: Core, sys: System, cpuid: nat, frame: nat, lsm: string, context: nat, sm: string)
    requires Stack(s, Thread(s, sys, frame)) != []
    ensures Links(s, sys, cpuid, frame, lsm, context, true, sm)
            == match Links(s, sys, cpuid, frame, lsm, context, false, "")
               case Stops => Stops
               case Goes(s1) => SmEnds(s1, sys, cpuid, sm, frame)
    ensures SyscallLinks(s, sys, cpuid, frame, lsm, true, sm)
            == match SyscallLinks(s, sys, cpuid, frame, lsm, false, "")
               case Stops => Stops
               case Goes(s1) => SmEnds(s1, sys, cpuid, sm, frame)
  {
    hide KnowSys, SysId, KnowSm, SmId, SmEnds, LinkIn;
    KnowSysStacks(s, sys);
  }

  /** A link for a system call: one record, held back, from the running machine to one yet unknown. */
  lemma HoldLeaves(s: Core, sys: System, cpuid: nat, frame: nat, lsm: string)
    requires CoreOk(s) && Stack(s, Thread(s, sys, frame)) != []
    requires SyscallLinks(s, sys, cpuid, frame, lsm, false, "").Goes?
    ensures var sid := Thread(s, sys, frame);
      var s' := SyscallLinks(s, sys, cpuid, frame, lsm, false, "").s;
      && s'.lnMap == s.lnMap && s'.lastState == s.lastState && s'.swExpl == s.swExpl && Stack(s', sid) == Stack(s, sid)
      && s.heap <= s'.heap && |s'.heap| == |s.heap| + 1 && HeldAt(s', sid.sys, Id(lsm, frame), |s.heap|)
      && !s'.heap[|s.heap|].dump
      && Shows(s'.heap[|s.heap|].(dump := true), s.now, OP_LINK, 0, cpuid, Runs(s, sys, frame), 0xFFFF, 0)
  {
    hide Inv, KnowSys, SysId;
    KnowSysOnly(s, sys);
    var s1, sid, s2 := ThreadSteady(s, sys, frame, false);
  }

  /** Connection numbers count up; one record with the number in it. */
  lemma IdLeaves(s: Core, sys: System, cpuid: nat, frame: nat, id: nat)
    requires Stack(s, Thread(s, sys, frame)) != []
    ensures GetsId(s, sys, cpuid, frame).Goes?
    ensures var s' := GetsId(s, sys, cpuid, frame).s;
      && s'.conId == s.conId + 1 && s.heap <= s'.heap && |s'.heap| == |s.heap| + 1
      && Shows(s'.heap[|s.heap|], s.now, OP_IDENT, 0, cpuid, Runs(s, sys, frame), 0, WrapInt32(s.conId + 1))
    ensures var s' := Identifies(s, sys, cpuid, frame, id);
      && s'.conId == s.conId && s.heap <= s'.heap && |s'.heap| == |s.heap| + 1
      && Shows(s'.heap[|s.heap|], s.now, OP_IDENT, 0, cpuid, Runs(s, sys, frame), 0, WrapInt32(id))
  {
    hide KnowSys, SysId, WrapInt32;
    KnowSysOnly(s, sys);
    var later := s.(conId := s.conId + 1);
    KnowSysOnly(later, sys);
    SameSysId(s, later, sys);
  }

  /** The low 32 bits of a number, read as a signed one. */
  lemma LowBits(x: int)
    ensures -0x8000_0000 <= WrapInt32(x) < 0x8000_0000 && (WrapInt32(x) - x) % 0x1_0000_0000 == 0
  {
    assert x + 0x8000_0000 == 0x1_0000_0000 * ((x + 0x8000_0000) / 0x1_0000_0000) + (x + 0x8000_0000) % 0x1_0000_0000;
    assert WrapInt32(x) - x == 0x1_0000_0000 * -((x + 0x8000_0000) / 0x1_0000_0000);
  }

  lemma SameSysId(s: Core, s': Core, sys: System)
    requires s'.t == s.t
    ensures SysId(KnowSys(s', sys), sys) == SysId(KnowSys(s, sys), sys)
  {
  }

  /** The operation a queue call is logged under, and the count. */
  predicate LoggedAs(op: QueueCall, code: nat) {
    match op
    case Enqueues(_) => code == 0x04
    case Dequeues(_) => code == 0x05
    case Resizes(_, _) => false
    case Peeks(_) => code == 0x09
    case Reserves(_) => code == 0x0C
    case AwaitsFull(_) => code == 0x03
    case AwaitsEmpty(_) => code == 0x02
  }

  /** Every queue call but a resize logs one record: what was asked of which queue by which machine. */
  lemma QueueLeaves(s: Core, op: QueueCall, flag: nat, cpuid: nat, smi: nat, sysi: nat, name: Id, code: nat)
    requires CoreOk(s) && KnownSys(s, sysi) && LoggedAs(op, code)
    requires QueueOps(s, op, flag, cpuid, smi, sysi, name).Goes?
    ensures var s' := QueueOps(s, op, flag, cpuid, smi, sysi, name).s;
      && s'.lnMap == s.lnMap && s'.lastState == s.lastState && s'.swExpl == s.swExpl && s'.smStack == s.smStack
      && |s'.heap| == |s.heap| + 1
      && Shows(s'.heap[|s.heap|], s.now, code, flag, cpuid, smi, QueueNumber(s, sysi, name), op.count)
      && (op.OnlyNotes() ==> s.heap <= s'.heap && s.qData <= s'.qData)
  {
    hide Inv, StatesOk, TablesOk, Steady, Enqueue, Dequeue, Resize, Shows;
    Shape(s);
    QueueKnown(s, sysi, name);
    KnowQSteady(s, sysi, name);
    var s1 := KnowQ(s, sysi, name).s;
    SteadyCoreOk(s, s1);
    var qi := QId(s1, sysi, name);
    assert qi == QueueNumber(s, sysi, name);
    hide KnowQ, QId, QueueNumber;
    match op {
      case Enqueues(count) => EnqueueLeaves(s1, flag, cpuid, smi, qi, count);
      case Dequeues(count) => DequeueLeaves(s1, flag, cpuid, smi, qi, count);
      case _ => ShowsNote(s.now, code, flag, cpuid, smi, qi, op.count);
    }
  }

  lemma ShowsNote(now: int, op: nat, flag: nat, cpuid: nat, sm: nat, stq: nat, count: int)
    ensures Shows(Record(now, op, flag, cpuid, sm, stq, count), now, op, flag, cpuid, sm, stq, count)
  {
  }

  lemma EnqueueLeaves(s: Core, flags: nat, cpuid: nat, sm: nat, qi: nat, count: int)
    requires KnownQ(s, qi) && Enqueue(s, flags, cpuid, sm, qi, count).Goes?
    ensures var s' := Enqueue(s, flags, cpuid, sm, qi, count).s;
      && s'.lnMap == s.lnMap && s'.lastState == s.lastState && s'.swExpl == s.swExpl && s'.smStack == s.smStack
      && s.heap <= s'.heap && |s'.heap| == |s.heap| + 1
      && Shows(s'.heap[|s.heap|], s.now, OP_QUEUE, flags, cpuid, sm, qi, count)
  {
    hide Joined, QueuesInFront;
  }

  lemma DequeueLeaves(s: Core, flags: nat, cpuid: nat, sm: nat, qi: nat, count: int)
    requires CoreOk(s) && 1 <= qi <= s.t.numQs && KnownQ(s, qi) && Dequeue(s, flags, cpuid, sm, qi, count).Goes?
    ensures var s' := Dequeue(s, flags, cpuid, sm, qi, count).s;
      && s'.lnMap == s.lnMap && s'.lastState == s.lastState && s'.swExpl == s.swExpl && s'.smStack == s.smStack
      && |s'.heap| == |s.heap| + 1 && Shows(s'.heap[|s.heap|], s.now, OP_DEQUEUE, flags, cpuid, sm, qi, count)
  {
    hide Inv, TakeFront, FrontOverflows, Steady, OthersSame, Units, NonNegative, Shows, Record;
    ShowsNote(s.now, OP_DEQUEUE, flags, cpuid, sm, qi, count);
    if count != -1 { DequeuedDrops(s, qi, count); }
  }

  lemma SteadyCoreOk(s: Core, s': Core)
    requires Steady(s, s', true)
    ensures CoreOk(s')
  {
  }

  /** By software: for the running machine; queueing, dequeueing, peeking and reserving let symbols count again. */
  lemma SwQueueLeaves(s: Core, op: QueueCall, sys: System, frame: nat, cpuid: nat, q: Id, code: nat)
    requires CoreOk(s) && Stack(s, Thread(s, sys, frame)) != [] && LoggedAs(op, code)
    requires SwQueues(s, op, sys, frame, cpuid, q).Goes? && !(op.Enqueues? && op.count == 0)
    ensures var sid := Thread(s, sys, frame);
      var s' := SwQueues(s, op, sys, frame, cpuid, q).s;
      && s'.lnMap == s.lnMap && s'.lastState == s.lastState && Stack(s', sid) == Stack(s, sid)
      && Marked(s', sid) == (Marked(s, sid) && (op.AwaitsFull? || op.AwaitsEmpty?)) && OtherMarks(s, s', sid)
      && |s'.heap| == |s.heap| + 1
      && Shows(s'.heap[|s.heap|], s.now, code, 0, cpuid, Runs(s, sys, frame),
               QueueNumber(KnowSys(s, sys), sid.sys, q), op.count)
  {
    hide Inv, Steady, KnowSys, SysId, QueueOps, Refused, Shows, QueueNumber;
    KnowSysOnly(s, sys);
    var s1, sid, s2 := ThreadSteady(s, sys, frame, false);
    SteadyOk(s, s2, true);
    var s3 := if op.Unmarks() then s2.(swExpl := s2.swExpl[sid := false]) else s2;
    SameStoreSteady(s2, s3);
    SteadyOk(s2, s3, true);
    QueueLeaves(s3, op, 0, cpuid, Top(s3, sid), sid.sys, q, code);
    SameQueueNumber(s1, s3, sid.sys, q);
  }

  lemma SameQueueNumber(s: Core, s': Core, sysi: nat, q: Id)
    requires s'.t.qCache == s.t.qCache && |s'.qData| == |s.qData| && KnownSys(s, sysi) && KnownSys(s', sysi)
    ensures QueueNumber(s', sysi, q) == QueueNumber(s, sysi, q)
  {
  }

  /** By hardware: for the named machine, of processor 0 and with the hardware flag. */
  lemma HwQueueLeaves(s: Core, op: QueueCall, flag: nat, sys: System, frame: nat, sm: string, qSys: System, q: Id,
                      code: nat)
    requires CoreOk(s) && HwQueues(s, op, flag, sys, frame, sm, qSys, q).Goes? && LoggedAs(op, code)
    ensures var s2 := KnowSys(KnowSys(s, sys), qSys);
      var smi := NumberOf(s2, Thread(s, sys, frame).sys, Id(sm, frame));
      var s' := HwQueues(s, op, flag, sys, frame, sm, qSys, q).s;
      && s'.lnMap == s.lnMap && s'.lastState == s.lastState && s'.swExpl == s.swExpl && s'.smStack == s.smStack
      && |s'.heap| == |s.heap| + 1
      && Shows(s'.heap[|s.heap|], s.now, code, s'.heap[|s.heap|].flag, 0, smi,
               QueueNumber(s2, SysId(s2, qSys), q), op.count)
      && s'.heap[|s.heap|].flag % 2 == 1 && s'.heap[|s.heap|].flag / 2 == flag % 256 / 2
  {
    hide Inv, Steady, KnowSys, SysId, KnowSm, SmId, QueueOps, NumberOf, QueueNumber, Hardware, Shows;
    hide StatesOk, TablesOk;
    KnowSysSteady(s, sys);
    KnowSysOnly(s, sys);
    var s1 := KnowSys(s, sys);
    SteadyOk(s, s1, true);
    KnowSysSteady(s1, qSys);
    KnowSysOnly(s1, qSys);
    var s2 := KnowSys(s1, qSys);
    SteadyOk(s1, s2, true);
    var sysi, id := SysId(s1, sys), Id(sm, frame);
    KnowSmGoes(s2, sysi, id);
    KnowSmSteady(s2, sysi, id);
    var s3 := KnowSm(s2, sysi, id).s;
    SteadyOk(s2, s3, true);
    Shape(s3);
    QueueLeaves(s3, op, Hardware(flag), 0, SmId(s3, sysi, id), SysId(s2, qSys), q, code);
    SameQueueNumber(s2, s3, SysId(s2, qSys), q);
    var s' := HwQueues(s, op, flag, sys, frame, sm, qSys, q).s;
    FlagShown(s'.heap[|s.heap|], s.now, code, flag, SmId(s3, sysi, id), QueueNumber(s2, SysId(s2, qSys), q), op.count);
  }

  lemma FlagShown(r: AnnotateData, now: int, op: nat, flag: nat, sm: nat, stq: nat, count: int)
    requires Shows(r, now, op, Hardware(flag), 0, sm, stq, count)
    ensures Shows(r, now, op, r.flag, 0, sm, stq, count) && r.flag % 2 == 1 && r.flag / 2 == flag % 256 / 2
  {
    HardwareBit(flag);
  }

  /** A reset logs a size of zero first; shrinking logs the new size, growing a queued record, neither nothing. */
  lemma ResizeLeaves(s: Core, reset: bool, cpuid: nat, smi: nat, qi: nat, size: int)
    requires CoreOk(s) && KnownQ(s, qi) && 1 <= qi <= s.t.numQs && Resize(s, reset, cpuid, smi, qi, size).Goes?
    ensures var s' := Resize(s, reset, cpuid, smi, qi, size).s;
      var bytes := if reset then 0 else s.qBytes[qi - 1];
      var first := |s.heap| + (if reset then 1 else 0);
      && |s'.heap| == first + (if bytes == size then 0 else 1)
      && (reset ==> Shows(s'.heap[|s.heap|], s.now, OP_SIZE_QUEUE, 0, cpuid, smi, qi, 0))
      && (bytes < size ==> Shows(s'.heap[first], s.now, OP_QUEUE, 0, cpuid, smi, qi, size - bytes))
      && (bytes > size ==> Shows(s'.heap[first], s.now, OP_SIZE_QUEUE, 0, cpuid, smi, qi, size))
  {
    hide Inv, Resized, Shows, InHeap, Distinct, Bytes, Steady, OthersSame, Units, NonNegative;
    QueueOf(s, qi);
    if reset {
      ShowsNote(s.now, OP_SIZE_QUEUE, 0, cpuid, smi, qi, 0);
      EmptiedClears(s, qi, cpuid, smi, 0);
      EmptiedShape(s, qi, cpuid, smi, 0);
      var s1 := Emptied(s, qi, cpuid, smi, 0);
      SteadyCoreOk(s, s1);
      ResizedLeaves(s1, cpuid, smi, qi, size);
    } else {
      ResizedLeaves(s, cpuid, smi, qi, size);
    }
  }

  lemma ResizedLeaves(s: Core, cpuid: nat, smi: nat, qi: nat, size: int)
    requires CoreOk(s) && KnownQ(s, qi) && 1 <= qi <= s.t.numQs && Resized(s, cpuid, smi, qi, size).Goes?
    ensures var s' := Resized(s, cpuid, smi, qi, size).s;
      var bytes := s.qBytes[qi - 1];
      && |s'.heap| == |s.heap| + (if bytes == size then 0 else 1)
      && (bytes < size ==> Shows(s'.heap[|s.heap|], s.now, OP_QUEUE, 0, cpuid, smi, qi, size - bytes))
      && (bytes > size ==> Shows(s'.heap[|s.heap|], s.now, OP_SIZE_QUEUE, 0, cpuid, smi, qi, size))
      && (bytes <= 0 || size <= 0 || bytes <= size ==> s.heap <= s'.heap)
  {
    hide Inv, BackOverflows, Shows, Record, Enqueue, TakeBack;
    var bytes := s.qBytes[qi - 1];
    if bytes < size {
      EnqueueLeaves(s, 0, cpuid, smi, qi, size - bytes);
    } else if bytes > size {
      ShowsNote(s.now, OP_SIZE_QUEUE, 0, cpuid, smi, qi, size);
      var s1 := Logged(s, OP_SIZE_QUEUE, 0, cpuid, smi, qi, size);
      TakenElsewhere(s1.heap, s1.qData[qi - 1], s1.qBytes[qi - 1] - size, |s.heap|, s, qi);
    }
  }

  /** Bytes are only taken out of records that are in the queue. */
  lemma TakenElsewhere(heap: Heap, q: seq<Pointer>, need: int, p: Pointer, s: Core, qi: nat)
    requires CoreOk(s) && KnownQ(s, qi) && 1 <= qi <= s.t.numQs && q == s.qData[qi - 1] && p == |s.heap| < |heap|
    ensures |TakeBack(heap, q, need).0| == |heap| && TakeBack(heap, q, need).0[p] == heap[p]
  {
    InHeapOf(s, qi);
    NotQueued(heap, q, need, p);
  }

  lemma {:induction false} NotQueued(heap: Heap, q: seq<Pointer>, need: int, p: Pointer)
    requires p < |heap| && forall i :: 0 <= i < |q| ==> q[i] < p
    ensures |TakeBack(heap, q, need).0| == |heap| && TakeBack(heap, q, need).0[p] == heap[p]
    decreases |q|
  {
    if q != [] { NotQueued(heap, q[..|q| - 1], need - (if q[|q| - 1] < |heap| then heap[q[|q| - 1]].data else 0), p); }
  }

  /** Without a running machine, software calls log nothing and change no link, mark or last state. */
  lemma IdleLeaves(s: Core, c: Call)
    requires CoreOk(s) && Next(s, c).Goes?
    requires c.Begin? || c.Link? || c.SyscallLink? || c.SoftwareQueue? || c.Wait? || c.End? || c.Identify?
    requires Stack(s, Thread(s, c.sys, c.frame)) == []
    ensures var s' := Next(s, c).s;
      && s'.heap == s.heap && s'.lnMap == s.lnMap && s'.lastState == s.lastState && s'.swExpl == s.swExpl
      && s'.qData == s.qData && (forall o :: Stack(s', o) == Stack(s, o))
  {
    hide Inv, KnowSys, SysId, Entered, QueueOps, SmEnds, KnowQ, KnowSm, Ignored, Refused;
    KnowSysOnly(s, c.sys);
    IdleThread(s, KnowSys(s, c.sys), Thread(s, c.sys, c.frame));
  }

  lemma IdleThread(s: Core, s1: Core, sid: StackId)
    requires s1.smStack == s.smStack && Stack(s, sid) == []
    ensures forall o :: Stack(WithStack(s1, sid), o) == Stack(s, o)
  {
  }

  /** The clock is what the last tick said, and a tick changes nothing else. */
  lemma TickLeaves(s: Core, now: int)
    ensures var s' := Next(s, Tick(now)).s; Next(s, Tick(now)).Goes? && s'.now == now && s' == s.(now := now)
  {
  }

  /** A call that waits is the queue call, and then the end of the named machine if asked and one runs. */
  lemma WaitThenEnds(s: Core, op: QueueCall, sys: System, frame: nat, cpuid: nat, q: Id, ends: bool, sm: string)
    ensures Waits(s, op, sys, frame, cpuid, q, ends, sm)
            == match SwQueues(s, op, sys, frame, cpuid, q)
               case Stops => Stops
               case Goes(s1) =>
                 if ends && Stack(s, Thread(s, sys, frame)) != [] then SmEnds(s1, sys, cpuid, sm, frame) else Goes(s1)
  {
    hide KnowSys, SysId, SwQueues, SmEnds;
  }

  /** Which wait is logged: for the queue to be full or to be empty. */
  lemma WaitLeaves(s: Core, full: bool, count: int, sys: System, frame: nat, cpuid: nat, q: Id, sm: string)
    requires CoreOk(s) && Stack(s, Thread(s, sys, frame)) != []
    requires Next(s, Wait(full, count, sys, frame, cpuid, q, false, sm)).Goes?
    ensures var s' := Next(s, Wait(full, count, sys, frame, cpuid, q, false, sm)).s;
      && |s'.heap| == |s.heap| + 1 && Marked(s', Thread(s, sys, frame)) == Marked(s, Thread(s, sys, frame))
      && Shows(s'.heap[|s.heap|], s.now, if full then 0x03 else 0x02, 0, cpuid, Runs(s, sys, frame),
               QueueNumber(KnowSys(s, sys), Thread(s, sys, frame).sys, q), count)
  {
    hide Inv, KnowSys, SysId, SwQueues, SmEnds, Shows, QueueNumber, Thread, Marked, OtherMarks, Next, Runs, Stack;
    WaitIsQueueCall(s, full, count, sys, frame, cpuid, q, sm);
    var op := if full then AwaitsFull(count) else AwaitsEmpty(count);
    var code := if full then 0x03 else 0x02;
    assert LoggedAs(op, code) && op.count == count && (op.AwaitsFull? || op.AwaitsEmpty?);
    SwQueueLeaves(s, op, sys, frame, cpuid, q, code);
  }

  lemma WaitIsQueueCall(s: Core, full: bool, count: int, sys: System, frame: nat, cpuid: nat, q: Id, sm: string)
    ensures Next(s, Wait(full, count, sys, frame, cpuid, q, false, sm))
            == SwQueues(s, if full then AwaitsFull(count) else AwaitsEmpty(count), sys, frame, cpuid, q)
  {
    hide KnowSys, SysId, SwQueues, SmEnds, Stack;
  }

  /** Software that queues nothing only numbers the queue, and lets symbols count again. */
  lemma NothingQueued(s: Core, sys: System, frame: nat, cpuid: nat, q: Id)
    requires CoreOk(s) && Stack(s, Thread(s, sys, frame)) != []
    ensures var sid := Thread(s, sys, frame);
      var r := SwQueues(s, Enqueues(0), sys, frame, cpuid, q);
      r.Goes? ==>
        && r.s.heap == s.heap && r.s.lnMap == s.lnMap && r.s.lastState == s.lastState
        && Stack(r.s, sid) == Stack(s, sid) && !Marked(r.s, sid) && OtherMarks(s, r.s, sid)
        && QId(r.s, sid.sys, q) == QueueNumber(KnowSys(s, sys), sid.sys, q)
  {
    hide Inv, Steady, KnowSys, SysId, KnowQ, QueueOps, QueueNumber, QId;
    KnowSysOnly(s, sys);
    var s1, sid, s2 := ThreadSteady(s, sys, frame, false);
    SteadyOk(s, s2, true);
    var s3 := s2.(swExpl := s2.swExpl[sid := false]);
    SameStoreSteady(s2, s3);
    SteadyOk(s2, s3, true);
    OnlyNumbered(s3, sid.sys, q);
    SameQueueNumber(s1, s3, sid.sys, q);
  }

  lemma OnlyNumbered(s: Core, sysi: nat, q: Id)
    requires CoreOk(s) && KnownSys(s, sysi)
    ensures KnowQ(s, sysi, q).Goes? ==>
      var s' := KnowQ(s, sysi, q).s;
      && s'.heap == s.heap && s'.lnMap == s.lnMap && s'.lastState == s.lastState && s'.swExpl == s.swExpl
      && s'.smStack == s.smStack && QId(s', sysi, q) == QueueNumber(s, sysi, q)
  {
    hide Inv, StatesOk, TablesOk;
    Shape(s);
    QueueKnown(s, sysi, q);
    if q in s.t.qCache[sysi - 1] {
      assert InternQ(s.t, sysi, q) == s.t;
    }
  }

  /** States are numbered type by type: the first one of a new type is number one, of a known type the next. */
  lemma StateNumbers(s: Core, sm: string, st: string)
    requires CoreOk(s)
    ensures var s' := KnowSt(s, sm, st);
      && (StId(s, sm, st) != 0 ==> StId(s', sm, st) == StId(s, sm, st))
      && (sm !in s.t.smtCache ==> StId(s', sm, st) == 1)
      && (sm in s.t.smtCache && StId(s, sm, st) == 0 ==>
            1 <= s.t.smtCache[sm] <= |s.t.stCache| && StId(s', sm, st) == |s.t.stCache[s.t.smtCache[sm] - 1]| + 1)
      && (forall tm, t :: tm != sm ==> StId(s', tm, t) == StId(s, tm, t))
  {
    hide Inv, TablesOk, StatesOk, InternSt, StId;
    Shape(s);
    var s' := KnowSt(s, sm, st);
    OwnState(s.t, s, s', sm, st);
    forall tm, t | tm != sm ensures StId(s', tm, t) == StId(s, tm, t) { OtherState(s.t, s, s', sm, st, tm, t); }
  }

  lemma OwnState(t: Tables, s: Core, s': Core, sm: string, st: string)
    requires StatesOk(t) && s.t == t && s'.t == InternSt(t, sm, st)
    ensures StId(s, sm, st) != 0 ==> StId(s', sm, st) == StId(s, sm, st)
    ensures sm !in t.smtCache ==> StId(s', sm, st) == 1
    ensures sm in t.smtCache && StId(s, sm, st) == 0 ==>
      1 <= t.smtCache[sm] <= |t.stCache| && StId(s', sm, st) == |t.stCache[t.smtCache[sm] - 1]| + 1
  {
    hide StatesOk, InternSt;
    TypeAt(t, sm, st);
    if sm in t.smtCache { KnownType(t, sm, st); } else { NewType(t, sm, st); }
  }

  /** A known type has its table of states, whose size is the number of states, none of them numbered zero. */
  lemma TypeAt(t: Tables, sm: string, st: string)
    requires StatesOk(t)
    ensures |t.stCache| == |t.numSt| == t.numSmt
    ensures sm in t.smtCache ==>
      var x := t.smtCache[sm] - 1;
      0 <= x < |t.stCache| && t.numSt[x] == |t.stCache[x]| && (st in t.stCache[x] ==> t.stCache[x][st] != 0)
  {
    if sm in t.smtCache { assert Numbered(t.stCache[t.smtCache[sm] - 1], t.numSt[t.smtCache[sm] - 1]); }
  }

  /** Numbering a state touches its own type and no other. */
  lemma KnownType(t: Tables, sm: string, st: string)
    requires StatesOk(t) && sm in t.smtCache
    ensures var u := InternSt(t, sm, st);
      var x := t.smtCache[sm] - 1;
      && u.smtCache == t.smtCache && 0 <= x < |t.stCache|
      && u.stCache == if st in t.stCache[x] then t.stCache
                      else t.stCache[x := Put(t.stCache[x], st, |t.stCache[x]| + 1)]
  {
    TypeAt(t, sm, st);
    hide StatesOk;
  }

  lemma NewType(t: Tables, sm: string, st: string)
    requires StatesOk(t) && sm !in t.smtCache
    ensures var u := InternSt(t, sm, st);
      u.smtCache == t.smtCache[sm := |t.stCache| + 1] && u.stCache == t.stCache + [map[st := 1]]
  {
    TypeAt(t, sm, st);
    hide StatesOk;
    assert (t.stCache + [map[]])[|t.stCache| := map[st := 1]] == t.stCache + [map[st := 1]];
  }

  lemma TypesDiffer(t: Tables, sm: string, tm: string)
    requires StatesOk(t) && sm in t.smtCache && tm in t.smtCache && sm != tm
    ensures t.smtCache[tm] != t.smtCache[sm]
  {
  }

  lemma OtherState(t: Tables, s: Core, s': Core, sm: string, st: string, tm: string, ts: string)
    requires StatesOk(t) && s.t == t && s'.t == InternSt(t, sm, st) && tm != sm
    ensures StId(s', tm, ts) == StId(s, tm, ts)
  {
    hide StatesOk, InternSt;
    TypeAt(t, tm, ts);
    if sm in t.smtCache {
      KnownType(t, sm, st);
      if tm in t.smtCache { TypesDiffer(t, sm, tm); }
    } else {
      NewType(t, sm, st);
    }
  }
}
