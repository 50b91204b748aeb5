/**
 When the calls of guest software stop the simulation, what they do to the stacks, how pairs of them
 undo each other, and what becomes of a held link over a whole run.
 */
module CpaCalls {
  import opened CpaRecords
  import opened CpaQueues
  import opened CpaTables
  import opened CpaSpec
  import opened CpaInvariant
  import opened CpaSteps

  /** The stack that a call of this system and frame works on. */
  function Thread(s: Core, sys: System, frame: nat): StackId {
    StackId(SysId(KnowSys(s, sys), sys), frame)
  }

  /** No link into the machine is outstanding. */
  predicate Free(s: Core, smi: nat) {
    smi !in s.lnMap || s.lnMap[smi] == 0
  }

  /** The number of a machine, given already or next. */
  function NumberOf(s: Core, sysi: nat, id: Id): nat {
    if SmId(s, sysi, id) != 0 then SmId(s, sysi, id) else |s.t.smMap| + 1
  }

  ghost predicate OtherStacks(s: Core, s': Core, sid: StackId) {
    forall o :: o != sid ==> Stack(s', o) == Stack(s, o)
  }

  lemma KnowSmGoes(s: Core, sysi: nat, id: Id)
    requires CoreOk(s) && 1 <= sysi <= s.t.numSys
    ensures KnowSm(s, sysi, id).Goes? <==> NumberOf(s, sysi, id) < MAX_IDS
    ensures KnowSm(s, sysi, id).Goes? ==>
      var s' := KnowSm(s, sysi, id).s;
      && SmId(s', sysi, id) == NumberOf(s, sysi, id)
      && s' == s.(t := s'.t) && s'.t.nameCache == s.t.nameCache && s'.t.numSys == s.t.numSys
      && s'.t.qCache == s.t.qCache && s'.t.numQ == s.t.numQ && s'.t.numQs == s.t.numQs
  {
    hide Inv, StatesOk, TablesOk;
    Shape(s);
    KnownIsPositive(s, sysi, id);
  }

  lemma KnownIsPositive(s: Core, sysi: nat, id: Id)
    requires CoreOk(s) && KnownSys(s, sysi)
    ensures SmId(s, sysi, id) == 0 <==> id !in s.t.smCache[sysi - 1]
    ensures SmId(s, sysi, id) <= |s.t.smMap|
  {
    hide QueuesOk, LinksOk, StacksOk;
  }

  // ----- Ending a machine -----

  /** Ending stops exactly on an empty stack, and otherwise pops the named machine and nothing else. */
  lemma EndPops(s: Core, sys: System, cpuid: nat, sm: string, frame: nat)
    requires CoreOk(s)
    ensures var sid := Thread(s, sys, frame);
      var after := SmEnds(s, sys, cpuid, sm, frame);
      && (after.Goes? <==> Stack(s, sid) != [])
      && (after.Goes? ==>
            && OtherStacks(s, after.s, sid) && after.s.scLinks == KnowSys(s, sys).scLinks
            && Stack(after.s, sid) == if SmName(s, Top(s, sid)) == sm then Stack(s, sid)[..|Stack(s, sid)| - 1]
                                      else Stack(s, sid))
  {
    hide Inv, KnowSys, SysId, Finished;
    KnowSysSteady(s, sys);
    KnowSysStacks(s, sys);
    var s1 := KnowSys(s, sys);
    var sid := Thread(s, sys, frame);
    var s2 := WithStack(s1.(swExpl := s1.swExpl[sid := false]), sid);
    assert Stack(s2, sid) == Stack(s, sid) && OtherStacks(s, s2, sid);
    if Stack(s2, sid) != [] { TopEndsPops(s2, sid, sm, cpuid); }
  }

  lemma TopEndsPops(s: Core, sid: StackId, sm: string, cpuid: nat)
    requires Stack(s, sid) != []
    ensures var s' := TopEnds(s, sid, sm, cpuid);
      && OtherStacks(s, s', sid) && s'.scLinks == s.scLinks
      && Stack(s', sid) == if SmName(s, Top(s, sid)) == sm then Stack(s, sid)[..|Stack(s, sid)| - 1] else Stack(s, sid)
  {
  }

  // ----- Beginning one -----

  /** What beginning a machine needs: a number, and one link into the machine at most. */
  predicate MayBegin(s: Core, sys: System, frame: nat, sm: string, context: nat, link: bool) {
    var s1 := KnowSys(s, sys);
    var sid := Thread(s, sys, frame);
    var smi := NumberOf(s1, sid.sys, Id(sm, context));
    var linked := link && Stack(s, sid) != [];
    var awaited := 1 <= sid.sys <= |s1.scLinks| && Id(sm, frame) in s1.scLinks[sid.sys - 1];
    smi < MAX_IDS && (linked || awaited ==> Free(s, smi)) && !(linked && awaited)
  }

  lemma JoinGoes(s: Core, sid: StackId, smi: nat, cpuid: nat, link: bool)
    requires CoreOk(s)
    ensures var after := JoinStack(s, sid, smi, cpuid, link);
      var linked := link && Stack(s, sid) != [];
      && (after.Goes? <==> (linked ==> Free(s, smi)))
      && (after.Goes? ==>
            && OtherStacks(s, after.s, sid) && Stack(after.s, sid) == Stack(s, sid) + [smi]
            && after.s.t == s.t && after.s.scLinks == s.scLinks && s.heap <= after.s.heap
            && after.s.lnMap == if linked then s.lnMap[smi := Top(s, sid)] else s.lnMap)
      && (linked ==> Top(s, sid) != 0)
  {
    hide Inv;
    if Stack(s, sid) != [] { TopKnown(s, sid); }
  }

  lemma ArriveGoes(s: Core, sysi: nat, id: Id, smi: nat, cpuid: nat, state: string)
    requires CoreOk(s) && 1 <= sysi <= s.t.numSys && |s.scLinks| == s.t.numSys
    ensures var after := Arrive(s, sysi, id, smi, cpuid, state);
      && (after.Goes? <==> (id in s.scLinks[sysi - 1] ==> Free(s, smi)))
      && (after.Goes? ==>
            && after.s.smStack == s.smStack && after.s.t.nameCache == s.t.nameCache
            && after.s.scLinks == Release(s.scLinks, sysi - 1, id)
            && |s.heap| <= |after.s.heap|
            && (id in s.scLinks[sysi - 1] ==>
                  var p := s.scLinks[sysi - 1][id];
                  p < |s.heap| && after.s.heap[p] == s.heap[p].(stq := smi, dump := true)))
  {
    hide Inv, Entered;
    ResolvedGoes(s, sysi, id, smi);
    ResolvedSteady(s, sysi, id, smi);
    if Resolved(s, sysi, id, smi).Goes? {
      var s1 := Resolved(s, sysi, id, smi).s;
      EnteredSteady(s1, id.name, state, 0, cpuid, smi, true);
      EnteredAppends(s1, id.name, state, 0, cpuid, smi, true);
    }
  }

  lemma EnteredAppends(s: Core, sm: string, state: string, flag: nat, cpuid: nat, smi: nat, always: bool)
    ensures s.heap <= Entered(s, sm, state, flag, cpuid, smi, always).heap
  {
  }

  lemma ResolvedGoes(s: Core, sysi: nat, id: Id, smi: nat)
    requires CoreOk(s) && 1 <= sysi <= s.t.numSys && |s.scLinks| == s.t.numSys
    ensures var after := Resolved(s, sysi, id, smi);
      && (after.Goes? <==> (id in s.scLinks[sysi - 1] ==> Free(s, smi)))
      && (after.Goes? ==>
            && after.s.smStack == s.smStack && after.s.t == s.t
            && after.s.scLinks == Release(s.scLinks, sysi - 1, id)
            && |s.heap| == |after.s.heap|
            && (id in s.scLinks[sysi - 1] ==>
                  var p := s.scLinks[sysi - 1][id];
                  p < |s.heap| && after.s.heap[p] == s.heap[p].(stq := smi, dump := true)))
  {
    hide Inv, Steady;
    if id in s.scLinks[sysi - 1] {
      ToldSteady(s, sysi, id, smi);
    } else {
      assert s.scLinks[sysi - 1] - {id} == s.scLinks[sysi - 1];
      assert Release(s.scLinks, sysi - 1, id) == s.scLinks;
    }
  }

  /** Beginning a machine goes on exactly when it may. */
  lemma BeginGoesIff(s: Core, sys: System, frame: nat, cpuid: nat, sm: string, context: nat, link: bool, state: string)
    requires CoreOk(s)
    ensures SmBegins(s, sys, frame, cpuid, sm, context, link, state).Goes? <==>
        MayBegin(s, sys, frame, sm, context, link)
  {
    hide Inv, Steady, KnowSys, KnowSm, SmId, JoinStack, Arrive, SysId, OtherStacks, NumberOf;
    var s1, s2, s3 := BeginSteps(s, sys, frame, cpuid, sm, context, link, state);
    var sid := StackId(SysId(s1, sys), frame);
    var smi := NumberOf(s1, sid.sys, Id(sm, context));
    if smi < MAX_IDS {
      JoinGoes(s2, sid, smi, cpuid, link);
      if JoinStack(s2, sid, smi, cpuid, link).Goes? {
        ArriveGoes(s3, sid.sys, Id(sm, frame), smi, cpuid, state);
      }
    }
  }

  /** Then the machine is on top of its thread's stack. */
  lemma BeginPushes(s: Core, sys: System, frame: nat, cpuid: nat, sm: string, context: nat, link: bool, state: string)
    requires CoreOk(s) && SmBegins(s, sys, frame, cpuid, sm, context, link, state).Goes?
    ensures var sid := Thread(s, sys, frame);
      var smi := NumberOf(KnowSys(s, sys), sid.sys, Id(sm, context));
      var s' := SmBegins(s, sys, frame, cpuid, sm, context, link, state).s;
      && OtherStacks(s, s', sid) && Stack(s', sid) == Stack(s, sid) + [smi]
      && Thread(s', sys, frame) == sid && SmName(s', smi) == sm
  {
    hide Inv, Steady, KnowSys, KnowSm, SmId, JoinStack, Arrive, SysId, NumberOf, OtherStacks, Release;
    var s1, s2, s3 := BeginSteps(s, sys, frame, cpuid, sm, context, link, state);
    var sid := StackId(SysId(s1, sys), frame);
    var smi := NumberOf(s1, sid.sys, Id(sm, context));
    JoinGoes(s2, sid, smi, cpuid, link);
    ArriveGoes(s3, sid.sys, Id(sm, frame), smi, cpuid, state);
    var s4 := Arrive(s3, sid.sys, Id(sm, frame), smi, cpuid, state).s;
    assert SmBegins(s, sys, frame, cpuid, sm, context, link, state) == Goes(s4);
    SameThread(s1, s4, sys);
    SameElsewhere(s, s2, s3, s4, sid);
    SmBeginsSteady(s, sys, frame, cpuid, sm, context, link, state);
  }

  /** And a link held for it learns its number and is held no longer; all others stay. */
  lemma BeginResolves(s: Core, sys: System, frame: nat, cpuid: nat, sm: string, context: nat, link: bool, state: string)
    requires CoreOk(s) && SmBegins(s, sys, frame, cpuid, sm, context, link, state).Goes?
    ensures var x := Thread(s, sys, frame).sys;
      var s1 := KnowSys(s, sys);
      var smi := NumberOf(s1, x, Id(sm, context));
      var s' := SmBegins(s, sys, frame, cpuid, sm, context, link, state).s;
      && 1 <= x <= |s1.scLinks| && s'.scLinks == Release(s1.scLinks, x - 1, Id(sm, frame))
      && (Id(sm, frame) in s1.scLinks[x - 1] ==>
            var p := s1.scLinks[x - 1][Id(sm, frame)];
            p < |s.heap| && p < |s'.heap| && s'.heap[p] == s.heap[p].(stq := smi, dump := true))
  {
    hide Inv, Steady, KnowSys, KnowSm, SmId, JoinStack, Arrive, SysId, NumberOf, OtherStacks, Release;
    var s1, s2, s3 := BeginSteps(s, sys, frame, cpuid, sm, context, link, state);
    var sid := StackId(SysId(s1, sys), frame);
    var id := Id(sm, frame);
    var smi := NumberOf(s1, sid.sys, Id(sm, context));
    ArriveGoes(s3, sid.sys, id, smi, cpuid, state);
    KnowSysOnly(s, sys);
    if id in s1.scLinks[sid.sys - 1] { HeldInHeap(s1, sid.sys, id, s1.scLinks[sid.sys - 1][id]); }
  }

  lemma HeldInHeap(s: Core, x: nat, id: Id, p: Pointer)
    requires CoreOk(s) && HeldAt(s, x, id, p)
    ensures p < |s.heap| && Awaiting(s.heap[p])
  {
    hide TablesOk, QueuesOk, StacksOk, LinksUnique, AllLinked;
  }

  lemma SameElsewhere(s: Core, s2: Core, s3: Core, s4: Core, sid: StackId)
    requires s2.smStack == s.smStack && OtherStacks(s2, s3, sid) && s4.smStack == s3.smStack
    ensures OtherStacks(s, s4, sid) && Stack(s4, sid) == Stack(s3, sid) && Stack(s2, sid) == Stack(s, sid)
  {
    forall o | o != sid ensures Stack(s4, o) == Stack(s, o) {
      assert Stack(s4, o) == Stack(s3, o) == Stack(s2, o);
    }
  }

  lemma SameThread(s: Core, s': Core, sys: System)
    requires sys in s.t.nameCache && s'.t.nameCache == s.t.nameCache
    ensures KnowSys(s', sys) == s' && SysId(s', sys) == SysId(s, sys)
  {
  }

  /** The states that beginning a machine passes through. */
  lemma BeginSteps(s: Core, sys: System, frame: nat, cpuid: nat, sm: string, context: nat, link: bool, state: string)
    returns (s1: Core, s2: Core, s3: Core)
    requires CoreOk(s)
    ensures s1 == KnowSys(s, sys) && CoreOk(s1) && s1.smStack == s.smStack && s1.lnMap == s.lnMap
    ensures |s1.scLinks| == s1.t.numSys && 1 <= SysId(s1, sys) <= s1.t.numSys && sys in s1.t.nameCache
    ensures var sysi := SysId(s1, sys);
      var smi := NumberOf(s1, sysi, Id(sm, context));
      && (KnowSm(s1, sysi, Id(sm, context)).Goes? <==> smi < MAX_IDS)
      && (smi < MAX_IDS ==>
            && CoreOk(s2) && s2 == s1.(t := s2.t) && s2.t.numSys == s1.t.numSys && s2.t.nameCache == s1.t.nameCache
            && KnowSm(s1, sysi, Id(sm, context)) == Goes(s2) && SmId(s2, sysi, Id(sm, context)) == smi)
      && (smi < MAX_IDS && JoinStack(s2, StackId(sysi, frame), smi, cpuid, link).Goes? ==>
            && CoreOk(s3) && JoinStack(s2, StackId(sysi, frame), smi, cpuid, link) == Goes(s3)
            && s3.t == s2.t && s3.scLinks == s2.scLinks && s2.heap <= s3.heap)
  {
    hide Inv, Steady, KnowSys, KnowSm, SmId, JoinStack, NumberOf;
    KnowSysSteady(s, sys);
    KnowSysOnly(s, sys);
    s1 := KnowSys(s, sys);
    SteadyOk(s, s1, true);
    Shape(s1);
    var sysi := SysId(s1, sys);
    var id := Id(sm, context);
    KnowSmGoes(s1, sysi, id);
    KnowSmSteady(s1, sysi, id);
    s2, s3 := s1, s1;
    if KnowSm(s1, sysi, id).Goes? {
      s2 := KnowSm(s1, sysi, id).s;
      SteadyOk(s1, s2, true);
      var smi := SmId(s2, sysi, id);
      var sid := StackId(sysi, frame);
      JoinGoes(s2, sid, smi, cpuid, link);
      JoinStackSteady(s2, sid, smi, cpuid, link);
      if JoinStack(s2, sid, smi, cpuid, link).Goes? {
        s3 := JoinStack(s2, sid, smi, cpuid, link).s;
        SteadyOk(s2, s3, true);
      }
    }
  }

  lemma KnowSysOnly(s: Core, sys: System)
    ensures var s' := KnowSys(s, sys); s' == s.(t := s'.t, scLinks := s'.scLinks) && s.scLinks <= s'.scLinks
  {
  }

  /** A machine that begins and then ends leaves all stacks as they were. */
  lemma BeginThenEnd(s: Core, sys: System, frame: nat, cpuid: nat, sm: string, context: nat, link: bool,
                     state: string, cpuid': nat)
    requires CoreOk(s) && MayBegin(s, sys, frame, sm, context, link)
    ensures SmBegins(s, sys, frame, cpuid, sm, context, link, state).Goes?
    ensures var s1 := SmBegins(s, sys, frame, cpuid, sm, context, link, state).s;
      var after := SmEnds(s1, sys, cpuid', sm, frame);
      after.Goes? && forall o :: Stack(after.s, o) == Stack(s, o)
  {
    hide Inv, Steady, SmBegins, SmEnds, MayBegin, KnowSys, SysId, SmName, NumberOf;
    BeginGoesIff(s, sys, frame, cpuid, sm, context, link, state);
    BeginPushes(s, sys, frame, cpuid, sm, context, link, state);
    SmBeginsSteady(s, sys, frame, cpuid, sm, context, link, state);
    var s1 := SmBegins(s, sys, frame, cpuid, sm, context, link, state).s;
    SteadyOk(s, s1, true);
    EndPops(s1, sys, cpuid', sm, frame);
    var s2 := SmEnds(s1, sys, cpuid', sm, frame).s;
    var sid := Thread(s, sys, frame);
    forall o ensures Stack(s2, o) == Stack(s, o) {
      if o != sid { assert Stack(s2, o) == Stack(s1, o) == Stack(s, o); }
    }
  }

  // ----- Held links -----

  /** Record p is held under this name of system x. */
  ghost predicate HeldAt(s: Core, x: nat, id: Id, p: Pointer) {
    1 <= x <= |s.scLinks| && id in s.scLinks[x - 1] && s.scLinks[x - 1][id] == p
  }

  /** The call begins the machine that a link is held for. */
  predicate Answers(s: Core, c: Call, x: nat, id: Id) {
    c.SmBegin? && Thread(s, c.sys, c.frame).sys == x && Id(c.sm, c.frame) == id
  }

  ghost predicate LinksKept(a: seq<map<Id, Pointer>>, b: seq<map<Id, Pointer>>) {
    |a| <= |b| && forall x, id :: 0 <= x < |a| && id in a[x] ==> id in b[x] && b[x][id] == a[x][id]
  }

  lemma LinksKeptTrans(a: seq<map<Id, Pointer>>, b: seq<map<Id, Pointer>>, c: seq<map<Id, Pointer>>)
    requires LinksKept(a, b) && LinksKept(b, c)
    ensures LinksKept(a, c)
  {
  }

  lemma LinksKeptRefl(a: seq<map<Id, Pointer>>)
    ensures LinksKept(a, a)
  {
  }

  lemma KnowSysKeeps(s: Core, sys: System)
    ensures LinksKept(s.scLinks, KnowSys(s, sys).scLinks)
  {
  }

  lemma EndKeeps(s: Core, sys: System, cpuid: nat, sm: string, frame: nat)
    requires CoreOk(s)
    ensures SmEnds(s, sys, cpuid, sm, frame).Goes? ==> LinksKept(s.scLinks, SmEnds(s, sys, cpuid, sm, frame).s.scLinks)
  {
    hide Inv, SmEnds, KnowSys, LinksKept;
    EndPops(s, sys, cpuid, sm, frame);
    KnowSysKeeps(s, sys);
  }

  lemma BeginStateKeeps(s: Core, sys: System, cpuid: nat, state: string, frame: nat, expl: bool, flag: nat)
    requires CoreOk(s)
    ensures LinksKept(s.scLinks, Begins(s, sys, cpuid, state, frame, expl, flag).scLinks)
  {
    hide Ignored, Inv, KnowSys, SysId, LinksKept, SmName, KnowSt;
    LinksKeptRefl(s.scLinks);
    KnowSysKeeps(s, sys);
    KnowStLinks();
  }

  lemma EndStateKeeps(s: Core, sys: System, cpuid: nat, state: string, frame: nat)
    requires CoreOk(s)
    ensures LinksKept(s.scLinks, StateEnds(s, sys, cpuid, state, frame).scLinks)
  {
    hide Inv, KnowSys, SysId, LinksKept, SmName, KnowSt;
    KnowSysKeeps(s, sys);
    KnowStLinks();
  }

  lemma IdentifyKeeps(s: Core, sys: System, cpuid: nat, frame: nat, id: nat)
    ensures LinksKept(s.scLinks, Identifies(s, sys, cpuid, frame, id).scLinks)
  {
    hide KnowSys, SysId, LinksKept, WrapInt32;
    KnowSysKeeps(s, sys);
  }

  lemma KnowStLinks()
    ensures forall s, sm, st :: KnowSt(s, sm, st).scLinks == s.scLinks
  {
  }

  lemma LinkKeeps(s: Core, sys: System, cpuid: nat, frame: nat, lsm: string, context: nat, ends: bool, sm: string)
    requires CoreOk(s)
    ensures Links(s, sys, cpuid, frame, lsm, context, ends, sm).Goes? ==>
      LinksKept(s.scLinks, Links(s, sys, cpuid, frame, lsm, context, ends, sm).s.scLinks)
  {
    hide Inv, SmEnds, KnowSys, SysId, LinksKept, KnowSm, SmId, Steady;
    KnowSysKeeps(s, sys);
    var s1, sid, s2 := ThreadSteady(s, sys, frame, false);
    SteadyOk(s, s2, true);
    if Stack(s2, sid) != [] && Links(s, sys, cpuid, frame, lsm, context, ends, sm).Goes? {
      var id := Id(lsm, context);
      KnowSmGoes(s2, sid.sys, id);
      KnowSmSteady(s2, sid.sys, id);
      var s3 := KnowSm(s2, sid.sys, id).s;
      SteadyOk(s2, s3, true);
      var lsmi := SmId(s3, sid.sys, id);
      var s4 := LinkIn(s3, lsmi, Top(s2, sid)).s;
      SameStoreSteady(s3, s4);
      SteadyOk(s3, s4, true);
      LoggedSteady(s4, OP_LINK, 0, cpuid, Top(s2, sid), lsmi, 0);
      var s5 := Logged(s4, OP_LINK, 0, cpuid, Top(s2, sid), lsmi, 0);
      SteadyOk(s4, s5, true);
      if ends {
        EndKeeps(s5, sys, cpuid, sm, frame);
        LinksKeptTrans(s.scLinks, s5.scLinks, SmEnds(s5, sys, cpuid, sm, frame).s.scLinks);
      }
    }
  }

  lemma SyscallLinkKeeps(s: Core, sys: System, cpuid: nat, frame: nat, lsm: string, ends: bool, sm: string)
    requires CoreOk(s)
    ensures SyscallLinks(s, sys, cpuid, frame, lsm, ends, sm).Goes? ==>
      LinksKept(s.scLinks, SyscallLinks(s, sys, cpuid, frame, lsm, ends, sm).s.scLinks)
  {
    hide Inv, SmEnds, KnowSys, SysId, LinksKept, Held, Steady;
    KnowSysKeeps(s, sys);
    var s1, sid, s2 := ThreadSteady(s, sys, frame, false);
    SteadyOk(s, s2, true);
    if Stack(s2, sid) != [] && SyscallLinks(s, sys, cpuid, frame, lsm, ends, sm).Goes? {
      var id := Id(lsm, frame);
      HeldSteady(s2, sid.sys, id, cpuid, Top(s2, sid));
      HeldKeeps(s2, sid.sys, id, cpuid, Top(s2, sid));
      var s3 := Held(s2, sid.sys, id, cpuid, Top(s2, sid));
      SteadyOk(s2, s3, true);
      LinksKeptTrans(s.scLinks, s2.scLinks, s3.scLinks);
      if ends {
        EndKeeps(s3, sys, cpuid, sm, frame);
        LinksKeptTrans(s.scLinks, s3.scLinks, SmEnds(s3, sys, cpuid, sm, frame).s.scLinks);
      }
    }
  }

  lemma HeldKeeps(s: Core, sysi: nat, id: Id, cpuid: nat, smi: nat)
    requires 1 <= sysi <= |s.scLinks| && id !in s.scLinks[sysi - 1]
    ensures LinksKept(s.scLinks, Held(s, sysi, id, cpuid, smi).scLinks)
  {
  }

  lemma QueueLinks(s: Core, op: QueueCall, flag: nat, cpuid: nat, smi: nat, sysi: nat, name: Id)
    ensures KnowQ(s, sysi, name).Goes? ==> KnowQ(s, sysi, name).s.scLinks == s.scLinks
    ensures QueueOps(s, op, flag, cpuid, smi, sysi, name).Goes? ==>
      QueueOps(s, op, flag, cpuid, smi, sysi, name).s.scLinks == s.scLinks
  {
    hide InternQ, Enqueue, Dequeue, Resize, QId;
    if KnowQ(s, sysi, name).Goes? {
      var s1 := KnowQ(s, sysi, name).s;
      var qi := QId(s1, sysi, name);
      match op {
        case Enqueues(count) => EnqueueLinks(s1, flag, cpuid, smi, qi, count);
        case Dequeues(count) => DequeueLinks(s1, flag, cpuid, smi, qi, count);
        case Resizes(count, reset) => ResizeLinks(s1, reset, cpuid, smi, qi, count);
        case _ =>
      }
    }
  }

  lemma EnqueueLinks(s: Core, flags: nat, cpuid: nat, sm: nat, qi: nat, count: int)
    ensures Enqueue(s, flags, cpuid, sm, qi, count).Goes? ==>
        Enqueue(s, flags, cpuid, sm, qi, count).s.scLinks == s.scLinks
  {
  }

  lemma DequeueLinks(s: Core, flags: nat, cpuid: nat, sm: nat, qi: nat, count: int)
    ensures Dequeue(s, flags, cpuid, sm, qi, count).Goes? ==>
        Dequeue(s, flags, cpuid, sm, qi, count).s.scLinks == s.scLinks
  {
    hide TakeFront, FrontOverflows;
  }

  lemma ResizeLinks(s: Core, reset: bool, cpuid: nat, smi: nat, qi: nat, size: int)
    ensures Resize(s, reset, cpuid, smi, qi, size).Goes? ==>
        Resize(s, reset, cpuid, smi, qi, size).s.scLinks == s.scLinks
  {
    hide TakeBack, Enqueue, BackOverflows;
    if KnownQ(s, qi) {
      var s1 := if reset then Emptied(s, qi, cpuid, smi, 0) else s;
      EnqueueLinks(s1, 0, cpuid, smi, qi, size - s1.qBytes[qi - 1]);
    }
  }

  lemma HwQueueKeeps(s: Core, op: QueueCall, flag: nat, sys: System, frame: nat, sm: string, qSys: System, q: Id)
    ensures HwQueues(s, op, flag, sys, frame, sm, qSys, q).Goes? ==>
      LinksKept(s.scLinks, HwQueues(s, op, flag, sys, frame, sm, qSys, q).s.scLinks)
  {
    hide KnowSys, SysId, LinksKept, QueueOps, InternSm, SmId;
    var s1 := KnowSys(s, sys);
    var s2 := KnowSys(s1, qSys);
    KnowSysKeeps(s, sys);
    KnowSysKeeps(s1, qSys);
    LinksKeptTrans(s.scLinks, s1.scLinks, s2.scLinks);
    if HwQueues(s, op, flag, sys, frame, sm, qSys, q).Goes? {
      var s3 := KnowSm(s2, SysId(s1, sys), Id(sm, frame)).s;
      QueueLinks(s3, op, Hardware(flag), 0, SmId(s3, SysId(s1, sys), Id(sm, frame)), SysId(s2, qSys), q);
    }
  }

  lemma SwQueueKeeps(s: Core, op: QueueCall, sys: System, frame: nat, cpuid: nat, q: Id)
    ensures SwQueues(s, op, sys, frame, cpuid, q).Goes? ==>
      LinksKept(s.scLinks, SwQueues(s, op, sys, frame, cpuid, q).s.scLinks)
  {
    hide KnowSys, SysId, LinksKept, QueueOps, KnowQ, Refused;
    KnowSysKeeps(s, sys);
    var sid := Thread(s, sys, frame);
    var s2 := WithStack(KnowSys(s, sys), sid);
    if Stack(s2, sid) != [] {
      var s3 := if op.Unmarks() then s2.(swExpl := s2.swExpl[sid := false]) else s2;
      QueueLinks(s3, op, 0, cpuid, Top(s3, sid), sid.sys, q);
    }
  }

  lemma WaitKeeps(s: Core, op: QueueCall, sys: System, frame: nat, cpuid: nat, q: Id, ends: bool, sm: string)
    requires CoreOk(s) && IsInt32(op.count)
    ensures Waits(s, op, sys, frame, cpuid, q, ends, sm).Goes? ==>
      LinksKept(s.scLinks, Waits(s, op, sys, frame, cpuid, q, ends, sm).s.scLinks)
  {
    hide Inv, Steady, KnowSys, SysId, LinksKept, SwQueues, SmEnds;
    SwQueueKeeps(s, op, sys, frame, cpuid, q);
    SwQueuesSteady(s, op, sys, frame, cpuid, q);
    if SwQueues(s, op, sys, frame, cpuid, q).Goes? {
      var s1 := SwQueues(s, op, sys, frame, cpuid, q).s;
      SteadyOk(s, s1, UnsignedOp(op));
      EndKeeps(s1, sys, cpuid, sm, frame);
      if SmEnds(s1, sys, cpuid, sm, frame).Goes? {
        LinksKeptTrans(s.scLinks, s1.scLinks, SmEnds(s1, sys, cpuid, sm, frame).s.scLinks);
      }
    }
  }

  lemma CheckKeeps(s: Core, sys: System, q: Id)
    ensures Checks(s, sys, q).Goes? ==> LinksKept(s.scLinks, Checks(s, sys, q).s.scLinks)
  {
    hide KnowSys, SysId, LinksKept, InternQ;
    KnowSysKeeps(s, sys);
  }

  lemma GetIdKeeps(s: Core, sys: System, cpuid: nat, frame: nat)
    ensures GetsId(s, sys, cpuid, frame).Goes? ==> LinksKept(s.scLinks, GetsId(s, sys, cpuid, frame).s.scLinks)
  {
    hide KnowSys, SysId, LinksKept, WrapInt32;
    KnowSysKeeps(s.(conId := s.conId + 1), sys);
  }

  lemma HwBeginKeeps(s: Core, flag: nat, sys: System, frame: nat, sm: string, state: string)
    ensures HwBegins(s, flag, sys, frame, sm, state).Goes? ==>
      LinksKept(s.scLinks, HwBegins(s, flag, sys, frame, sm, state).s.scLinks)
  {
    hide KnowSys, SysId, LinksKept, InternSm, SmId, StId, KnowSt;
    KnowSysKeeps(s, sys);
    KnowStLinks();
  }

  /** Only beginning the awaited machine lets go of a held link. */
  lemma NextKeepsHeld(s: Core, c: Call, x: nat, id: Id, p: Pointer)
    requires CoreOk(s) && c.WellTyped() && Next(s, c).Goes? && HeldAt(s, x, id, p) && !Answers(s, c, x, id)
    ensures HeldAt(Next(s, c).s, x, id, p)
  {
    hide Inv, SmBegins, SmEnds, Begins, Links, SyscallLinks, GetsId, HwBegins, HwQueues, SwQueues, KnowSys, SysId;
    hide NumberOf, Waits, Checks, StateEnds, Identifies;
    match c {
      case SmBegin(sys, frame, cpuid, sm, context, link, state) =>
        BeginResolves(s, sys, frame, cpuid, sm, context, link, state);
        KnowSysKeeps(s, sys);
      case SmEnd(sys, frame, cpuid, sm) => EndKeeps(s, sys, cpuid, sm, frame);
      case Begin(sys, frame, cpuid, state, expl, flag) => BeginStateKeeps(s, sys, cpuid, state, frame, expl, flag);
      case Link(sys, frame, cpuid, lsm, context, ends, sm) => LinkKeeps(s, sys, cpuid, frame, lsm, context, ends, sm);
      case SyscallLink(sys, frame, cpuid, lsm, ends, sm) => SyscallLinkKeeps(s, sys, cpuid, frame, lsm, ends, sm);
      case GetId(sys, frame, cpuid) => GetIdKeeps(s, sys, cpuid, frame);
      case HardwareBegin(flag, sys, frame, sm, state) => HwBeginKeeps(s, flag, sys, frame, sm, state);
      case HardwareQueue(op, flag, sys, frame, sm, qSys, q) => HwQueueKeeps(s, op, flag, sys, frame, sm, qSys, q);
      case SoftwareQueue(op, sys, frame, cpuid, q) => SwQueueKeeps(s, op, sys, frame, cpuid, q);
      case Wait(_, _, sys, frame, cpuid, q, ends, sm) => WaitKeeps(s, c.Awaited(), sys, frame, cpuid, q, ends, sm);
      case CheckQueue(sys, q) => CheckKeeps(s, sys, q);
      case End(sys, frame, cpuid, state) => EndStateKeeps(s, sys, cpuid, state, frame);
      case Identify(sys, frame, cpuid, id) => IdentifyKeeps(s, sys, cpuid, frame, id);
      case Tick(now) =>
    }
  }

  /** And it gives the link its target. */
  lemma AnswerResolves(s: Core, c: Call, x: nat, id: Id, p: Pointer)
    requires CoreOk(s) && Next(s, c).Goes? && HeldAt(s, x, id, p) && Answers(s, c, x, id)
    ensures var s' := Next(s, c).s;
      var sid := StackId(x, c.frame);
      && p < |s.heap| && p < |s'.heap| && Stack(s', sid) != [] && SmName(s', Top(s', sid)) == id.name
      && s'.heap[p] == s.heap[p].(stq := Top(s', sid), dump := true)
  {
    hide Inv, SmBegins, KnowSys, SysId, NumberOf, Release;
    BeginResolves(s, c.sys, c.frame, c.cpuid, c.sm, c.context, c.link, c.state);
    BeginPushes(s, c.sys, c.frame, c.cpuid, c.sm, c.context, c.link, c.state);
    KnowSysKeeps(s, c.sys);
  }

  /** Some call of the run begins the awaited machine. */
  ghost predicate Answered(s: Core, calls: seq<Call>, x: nat, id: Id) {
    calls != [] && After(s, calls[..|calls| - 1]).Goes? &&
      (Answered(s, calls[..|calls| - 1], x, id) || Answers(After(s, calls[..|calls| - 1]).s, calls[|calls| - 1], x, id))
  }

  /** Over every run, a held link is released if and only if the machine it awaits has begun. */
  lemma {:induction false} HeldUntilBegun(s: Core, calls: seq<Call>, x: nat, id: Id, p: Pointer)
    requires CoreOk(s) && WellTypedAll(calls) && After(s, calls).Goes? && HeldAt(s, x, id, p)
    ensures var s' := After(s, calls).s;
      && p < |s'.heap| && (s'.heap[p].dump <==> Answered(s, calls, x, id))
      && (HeldAt(s', x, id, p) <==> !Answered(s, calls, x, id))
    decreases |calls|
  {
    hide Inv, Next, Answers, Extends, HeldAt;
    RunSteady(s, calls, |calls|);
    assert calls[..|calls|] == calls;
    var s' := After(s, calls).s;
    if calls == [] {
      HeldInHeap(s, x, id, p);
    } else {
      var before := calls[..|calls| - 1];
      RunSteady(s, calls, |before|);
      HeldUntilBegun(s, before, x, id, p);
      var s1 := After(s, before).s;
      var c := calls[|calls| - 1];
      NextSteady(s1, c);
      if Answered(s, before, x, id) {
        StaysReleased(s1, s', x, id, p);
      } else if Answers(s1, c, x, id) {
        AnswerResolves(s1, c, x, id, p);
        ReleasedNotHeld(s', x, id, p);
      } else {
        NextKeepsHeld(s1, c, x, id, p);
        HeldInHeap(s', x, id, p);
      }
    }
  }

  lemma ReleasedNotHeld(s: Core, x: nat, id: Id, p: Pointer)
    requires CoreOk(s) && p < |s.heap| && s.heap[p].dump
    ensures !HeldAt(s, x, id, p)
  {
    hide Inv, HeldAt;
    if HeldAt(s, x, id, p) { HeldInHeap(s, x, id, p); }
  }

  lemma StaysReleased(s: Core, s': Core, x: nat, id: Id, p: Pointer)
    requires p < |s.heap| && s.heap[p].dump && Extends(s.heap, s'.heap) && CoreOk(s')
    ensures p < |s'.heap| && s'.heap[p].dump && !HeldAt(s', x, id, p)
  {
    hide Inv, HeldAt;
    assert RecordKept(s.heap[p], s'.heap[p]);
    ReleasedNotHeld(s', x, id, p);
  }

  // ----- When a run stops -----

  /** The number of a queue, given already or next. */
  function QueueNumber(s: Core, sysi: nat, name: Id): nat {
    if QId(s, sysi, name) != 0 then QId(s, sysi, name) else |s.qData| + 1
  }

  function QueueIn(s: Core, sysi: nat, name: Id): seq<Pointer> {
    if KnownQ(s, QId(s, sysi, name)) then s.qData[QId(s, sysi, name) - 1] else []
  }

  /** Queue calls stop only for want of a number, of room or of bytes, or when negative counts overflow. */
  predicate MayQueue(s: Core, op: QueueCall, sysi: nat, name: Id) {
    var bytes := BytesIn(s, sysi, name);
    var q := QueueIn(s, sysi, name);
    && QueueNumber(s, sysi, name) < MAX_IDS
    && (op.Enqueues? ==> 0 <= bytes + op.count <= INT32_MAX)
    && (op.Dequeues? ==> op.count == -1 || (0 < op.count <= bytes && !FrontOverflows(s.heap, q, op.count)))
    && (op.Resizes? && !op.reset && 0 < op.count < bytes ==> !BackOverflows(s.heap, q, bytes - op.count))
  }

  lemma QueueKnown(s: Core, sysi: nat, name: Id)
    requires CoreOk(s) && KnownSys(s, sysi)
    ensures QId(s, sysi, name) == 0 <==> name !in s.t.qCache[sysi - 1]
    ensures QId(s, sysi, name) != 0 ==> KnownQ(s, QId(s, sysi, name))
  {
    hide QueuesOk, LinksOk, StacksOk;
    QueuesShape(s.heap, s.qSize, s.qBytes, s.qData);
  }

  lemma KnowQGoes(s: Core, sysi: nat, name: Id)
    requires CoreOk(s) && KnownSys(s, sysi)
    ensures KnowQ(s, sysi, name).Goes? <==> QueueNumber(s, sysi, name) < MAX_IDS
    ensures KnowQ(s, sysi, name).Goes? ==>
      var s1 := KnowQ(s, sysi, name).s;
      && KnownQ(s1, QId(s1, sysi, name)) && s1.qBytes[QId(s1, sysi, name) - 1] == BytesIn(s, sysi, name)
      && s1.heap == s.heap && s1.qData[QId(s1, sysi, name) - 1] == QueueIn(s, sysi, name)
      && s1.smStack == s.smStack && s1.t.nameCache == s.t.nameCache
  {
    hide Inv, StatesOk, TablesOk;
    Shape(s);
    QueueKnown(s, sysi, name);
  }

  lemma QueueGoesIff(s: Core, op: QueueCall, flag: nat, cpuid: nat, smi: nat, sysi: nat, name: Id)
    requires CoreOk(s) && KnownSys(s, sysi) && 1 <= sysi <= s.t.numSys && IsInt32(op.count)
    ensures QueueOps(s, op, flag, cpuid, smi, sysi, name).Goes? <==> MayQueue(s, op, sysi, name)
  {
    hide Inv, KnowQ, QId, BytesIn, QueueIn, Steady, Resize, FrontOverflows, BackOverflows;
    KnowQGoes(s, sysi, name);
    KnowQSteady(s, sysi, name);
    if KnowQ(s, sysi, name).Goes? && op.Resizes? {
      var s1 := KnowQ(s, sysi, name).s;
      SteadyOk(s, s1, true);
      ResizeGoesIff(s1, op.reset, cpuid, smi, QId(s1, sysi, name), op.count);
    }
  }

  lemma ResizeGoesIff(s: Core, reset: bool, cpuid: nat, smi: nat, qi: nat, size: int)
    requires CoreOk(s) && 1 <= qi <= s.t.numQs && IsInt32(size)
    ensures KnownQ(s, qi)
    ensures Resize(s, reset, cpuid, smi, qi, size).Goes? <==>
      (!reset && 0 < size < s.qBytes[qi - 1] ==>
        !BackOverflows(s.heap, s.qData[qi - 1], s.qBytes[qi - 1] - size))
  {
    hide Inv, InHeap, Distinct, Bytes, Units, NonNegative, Steady, OthersSame, Repeat, BackOverflows, TakeBack;
    QueueOf(s, qi);
    if reset { ResizeSets(s, reset, cpuid, smi, qi, size); }
    var r := Record(s.now, OP_SIZE_QUEUE, 0, cpuid, smi, qi, size);
    OverflowFrame(s.heap, s.heap + [r], s.qData[qi - 1], s.qBytes[qi - 1] - size);
  }

  /** Overflow is a matter of the counts in the queue. */
  lemma {:induction false} OverflowFrame(heap: Heap, heap': Heap, q: seq<Pointer>, need: int)
    requires InHeap(heap, q) && heap <= heap'
    ensures BackOverflows(heap', q, need) == BackOverflows(heap, q, need)
    decreases |q|
  {
    if q != [] { OverflowFrame(heap, heap', q[..|q| - 1], need - heap[q[|q| - 1]].data); }
  }

  /** What each call needs so as not to stop the simulation. */
  predicate MayCall(s: Core, c: Call) {
    match c
    case SmBegin(sys, frame, cpuid, sm, context, link, state) => MayBegin(s, sys, frame, sm, context, link)
    case SmEnd(sys, frame, cpuid, sm) => Stack(s, Thread(s, sys, frame)) != []
    case Begin(sys, frame, cpuid, state, expl, flag) => true
    case Link(sys, frame, cpuid, lsm, context, ends, sm) => MayLink(s, sys, frame, Id(lsm, context))
    case SyscallLink(sys, frame, cpuid, lsm, ends, sm) => MayHold(s, sys, frame, lsm)
    case GetId(sys, frame, cpuid) => Stack(s, Thread(s, sys, frame)) != []
    case HardwareBegin(flag, sys, frame, sm, state) =>
      NumberOf(KnowSys(s, sys), Thread(s, sys, frame).sys, Id(sm, frame)) < MAX_IDS
    case HardwareQueue(op, flag, sys, frame, sm, qSys, q) =>
      var s2 := KnowSys(KnowSys(s, sys), qSys);
      NumberOf(s2, Thread(s, sys, frame).sys, Id(sm, frame)) < MAX_IDS && MayQueue(s2, op, SysId(s2, qSys), q)
    case SoftwareQueue(op, sys, frame, cpuid, q) => MaySoftwareQueue(s, op, sys, frame, q)
    case Wait(_, _, sys, frame, cpuid, q, ends, sm) => MaySoftwareQueue(s, c.Awaited(), sys, frame, q)
    case CheckQueue(sys, q) => QueueNumber(KnowSys(s, sys), Thread(s, sys, 0).sys, q) < MAX_IDS
    case End(sys, frame, cpuid, state) => true
    case Identify(sys, frame, cpuid, id) => true
    case Tick(now) => true
  }

  predicate MayLink(s: Core, sys: System, frame: nat, id: Id) {
    var sid := Thread(s, sys, frame);
    var lsmi := NumberOf(KnowSys(s, sys), sid.sys, id);
    Stack(s, sid) != [] ==> lsmi < MAX_IDS && Free(s, lsmi)
  }

  predicate MayHold(s: Core, sys: System, frame: nat, lsm: string) {
    var x := Thread(s, sys, frame).sys;
    var links := KnowSys(s, sys).scLinks;
    Stack(s, Thread(s, sys, frame)) != [] && 1 <= x <= |links| ==> Id(lsm, frame) !in links[x - 1]
  }

  predicate MaySoftwareQueue(s: Core, op: QueueCall, sys: System, frame: nat, q: Id) {
    var sid := Thread(s, sys, frame);
    var s1 := KnowSys(s, sys);
    Stack(s, sid) != [] ==>
      if op.Enqueues? && op.count == 0 then QueueNumber(s1, sid.sys, q) < MAX_IDS
      else
        && (op.Peeks? ==> op.count != 0 && op.count <= BytesIn(s1, sid.sys, q)) && (op.Reserves? ==> op.count != 0)
        && MayQueue(s1, op, sid.sys, q)
  }

  lemma LinkGoesIff(s: Core, sys: System, cpuid: nat, frame: nat, lsm: string, context: nat, ends: bool, sm: string)
    requires CoreOk(s)
    ensures Links(s, sys, cpuid, frame, lsm, context, ends, sm).Goes? <==> MayLink(s, sys, frame, Id(lsm, context))
  {
    hide Inv, SmEnds, KnowSys, SysId, KnowSm, SmId, Steady, NumberOf;
    KnowSysOnly(s, sys);
    var s1, sid, s2 := ThreadSteady(s, sys, frame, false);
    SteadyOk(s, s2, true);
    var id := Id(lsm, context);
    KnowSmGoes(s2, sid.sys, id);
    KnowSmSteady(s2, sid.sys, id);
    SameNumber(s1, s2, sid.sys, id);
    if Stack(s2, sid) != [] && KnowSm(s2, sid.sys, id).Goes? {
      var s3 := KnowSm(s2, sid.sys, id).s;
      SteadyOk(s2, s3, true);
      var lsmi := SmId(s3, sid.sys, id);
      if Free(s3, lsmi) {
        var s4 := LinkIn(s3, lsmi, Top(s2, sid)).s;
        SameStoreSteady(s3, s4);
        SteadyOk(s3, s4, true);
        LoggedSteady(s4, OP_LINK, 0, cpuid, Top(s2, sid), lsmi, 0);
        var s5 := Logged(s4, OP_LINK, 0, cpuid, Top(s2, sid), lsmi, 0);
        SteadyOk(s4, s5, true);
        SameThread(s2, s5, sys);
        EndPops(s5, sys, cpuid, sm, frame);
      }
    }
  }

  lemma SameNumber(s: Core, s': Core, sysi: nat, id: Id)
    requires s'.t == s.t
    ensures NumberOf(s', sysi, id) == NumberOf(s, sysi, id)
  {
  }

  lemma HoldGoesIff(s: Core, sys: System, cpuid: nat, frame: nat, lsm: string, ends: bool, sm: string)
    requires CoreOk(s)
    ensures SyscallLinks(s, sys, cpuid, frame, lsm, ends, sm).Goes? <==> MayHold(s, sys, frame, lsm)
  {
    hide Inv, SmEnds, KnowSys, SysId, Steady, Held, OtherStacks, StatesOk, TablesOk;
    KnowSysOnly(s, sys);
    var s1, sid, s2 := ThreadSteady(s, sys, frame, false);
    SteadyOk(s, s2, true);
    Shape(s2);
    var id := Id(lsm, frame);
    if Stack(s2, sid) != [] && id !in s2.scLinks[sid.sys - 1] {
      HeldSteady(s2, sid.sys, id, cpuid, Top(s2, sid));
      HeldOnly(s2, sid.sys, id, cpuid, Top(s2, sid));
      var s3 := Held(s2, sid.sys, id, cpuid, Top(s2, sid));
      SteadyOk(s2, s3, true);
      SameThread(s2, s3, sys);
      EndPops(s3, sys, cpuid, sm, frame);
    }
  }

  lemma HeldOnly(s: Core, sysi: nat, id: Id, cpuid: nat, smi: nat)
    requires 1 <= sysi <= |s.scLinks|
    ensures Held(s, sysi, id, cpuid, smi).smStack == s.smStack && Held(s, sysi, id, cpuid, smi).t == s.t
  {
  }

  lemma GetIdGoesIff(s: Core, sys: System, cpuid: nat, frame: nat)
    ensures GetsId(s, sys, cpuid, frame).Goes? <==> Stack(s, Thread(s, sys, frame)) != []
  {
  }

  lemma HwBeginGoesIff(s: Core, flag: nat, sys: System, frame: nat, sm: string, state: string)
    requires CoreOk(s)
    ensures HwBegins(s, flag, sys, frame, sm, state).Goes? <==>
      NumberOf(KnowSys(s, sys), Thread(s, sys, frame).sys, Id(sm, frame)) < MAX_IDS
  {
    hide Inv, KnowSys, SysId, KnowSm, SmId, Steady, NumberOf, KnowSt, StId;
    KnowSysSteady(s, sys);
    SteadyOk(s, KnowSys(s, sys), true);
    KnowSmGoes(KnowSys(s, sys), Thread(s, sys, frame).sys, Id(sm, frame));
  }

  lemma HwQueueGoesIff(s: Core, op: QueueCall, flag: nat, sys: System, frame: nat, sm: string, qSys: System, q: Id)
    requires CoreOk(s) && IsInt32(op.count)
    ensures var s2 := KnowSys(KnowSys(s, sys), qSys);
      HwQueues(s, op, flag, sys, frame, sm, qSys, q).Goes? <==>
      NumberOf(s2, Thread(s, sys, frame).sys, Id(sm, frame)) < MAX_IDS && MayQueue(s2, op, SysId(s2, qSys), q)
  {
    hide Inv, KnowSys, SysId, KnowSm, SmId, Steady, NumberOf, QueueOps, MayQueue;
    KnowSysSteady(s, sys);
    var s1 := KnowSys(s, sys);
    SteadyOk(s, s1, true);
    KnowSysSteady(s1, qSys);
    var s2 := KnowSys(s1, qSys);
    SteadyOk(s1, s2, true);
    var sysi, id := SysId(s1, sys), Id(sm, frame);
    KnowSmGoes(s2, sysi, id);
    KnowSmSteady(s2, sysi, id);
    if KnowSm(s2, sysi, id).Goes? {
      var s3 := KnowSm(s2, sysi, id).s;
      SteadyOk(s2, s3, true);
      Shape(s3);
      Shape(s2);
      QueueGoesIff(s3, op, Hardware(flag), 0, SmId(s3, sysi, id), SysId(s2, qSys), q);
      SameQueueing(s2, s3, op, SysId(s2, qSys), q);
    }
  }

  lemma SameQueueing(s: Core, s': Core, op: QueueCall, sysi: nat, q: Id)
    requires s'.qData == s.qData && s'.qBytes == s.qBytes && s'.qSize == s.qSize && s'.heap == s.heap
    requires KnownSys(s, sysi) && KnownSys(s', sysi) && s'.t.qCache == s.t.qCache
    ensures MayQueue(s', op, sysi, q) == MayQueue(s, op, sysi, q)
    ensures QueueNumber(s', sysi, q) == QueueNumber(s, sysi, q)
    ensures BytesIn(s', sysi, q) == BytesIn(s, sysi, q)
  {
  }

  lemma SwQueueGoesIff(s: Core, op: QueueCall, sys: System, frame: nat, cpuid: nat, q: Id)
    requires CoreOk(s) && IsInt32(op.count)
    ensures SwQueues(s, op, sys, frame, cpuid, q).Goes? <==> MaySoftwareQueue(s, op, sys, frame, q)
  {
    hide Inv, KnowSys, SysId, Steady, QueueOps, MayQueue, KnowQ, QueueNumber, BytesIn;
    KnowSysOnly(s, sys);
    var s1, sid, s2 := ThreadSteady(s, sys, frame, false);
    SteadyOk(s, s2, true);
    if Stack(s2, sid) != [] {
      var s3 := if op.Unmarks() then s2.(swExpl := s2.swExpl[sid := false]) else s2;
      SameStoreSteady(s2, s3);
      SteadyOk(s2, s3, true);
      KnowQGoes(s3, sid.sys, q);
      QueueGoesIff(s3, op, 0, cpuid, Top(s3, sid), sid.sys, q);
      SameQueueing(s1, s3, op, sid.sys, q);
    }
  }

  /** Queue calls of software leave the stacks alone. */
  lemma SwQueueStacks(s: Core, op: QueueCall, sys: System, frame: nat, cpuid: nat, q: Id)
    requires CoreOk(s) && IsInt32(op.count) && op.OnlyNotes() && SwQueues(s, op, sys, frame, cpuid, q).Goes?
    ensures var s' := SwQueues(s, op, sys, frame, cpuid, q).s;
      Thread(s', sys, frame) == Thread(s, sys, frame) &&
      Stack(s', Thread(s, sys, frame)) == Stack(s, Thread(s, sys, frame))
  {
    hide Inv, KnowSys, SysId, Steady, KnowQ, Refused, QueueIn, BytesIn, QId;
    KnowSysOnly(s, sys);
    var s1, sid, s2 := ThreadSteady(s, sys, frame, false);
    SteadyOk(s, s2, true);
    var s' := SwQueues(s, op, sys, frame, cpuid, q).s;
    if Stack(s2, sid) != [] {
      var s3 := if op.Unmarks() then s2.(swExpl := s2.swExpl[sid := false]) else s2;
      SameStoreSteady(s2, s3);
      SteadyOk(s2, s3, true);
      KnowQGoes(s3, sid.sys, q);
    }
    SameThread(s2, s', sys);
  }

  lemma WaitGoesIff(s: Core, op: QueueCall, sys: System, frame: nat, cpuid: nat, q: Id, ends: bool, sm: string)
    requires CoreOk(s) && IsInt32(op.count) && op.OnlyNotes()
    ensures Waits(s, op, sys, frame, cpuid, q, ends, sm).Goes? <==> MaySoftwareQueue(s, op, sys, frame, q)
  {
    hide Inv, KnowSys, SysId, Steady, SwQueues, MaySoftwareQueue, SmEnds;
    SwQueueGoesIff(s, op, sys, frame, cpuid, q);
    SwQueuesSteady(s, op, sys, frame, cpuid, q);
    if SwQueues(s, op, sys, frame, cpuid, q).Goes? {
      var s1 := SwQueues(s, op, sys, frame, cpuid, q).s;
      SteadyOk(s, s1, UnsignedOp(op));
      SwQueueStacks(s, op, sys, frame, cpuid, q);
      EndPops(s1, sys, cpuid, sm, frame);
    }
  }

  lemma CheckGoesIff(s: Core, sys: System, q: Id)
    requires CoreOk(s)
    ensures Checks(s, sys, q).Goes? <==> QueueNumber(KnowSys(s, sys), Thread(s, sys, 0).sys, q) < MAX_IDS
  {
    hide Inv, KnowSys, SysId, Steady, KnowQ, QueueNumber;
    KnowSysSteady(s, sys);
    SteadyOk(s, KnowSys(s, sys), true);
    KnowQGoes(KnowSys(s, sys), Thread(s, sys, 0).sys, q);
  }

  /** A call goes on exactly when it may. */
  lemma NextGoesIff(s: Core, c: Call)
    requires CoreOk(s) && c.WellTyped()
    ensures Next(s, c).Goes? <==> MayCall(s, c)
  {
    hide Inv, SmBegins, SmEnds, Begins, Links, SyscallLinks, GetsId, HwBegins, HwQueues, SwQueues, KnowSys, SysId;
    hide MayBegin, MayLink, MayHold, MayQueue, MaySoftwareQueue, NumberOf, QueueNumber;
    hide Waits, Checks, StateEnds, Identifies;
    match c {
      case SmBegin(sys, frame, cpuid, sm, context, link, state) =>
        BeginGoesIff(s, sys, frame, cpuid, sm, context, link, state);
      case SmEnd(sys, frame, cpuid, sm) => EndPops(s, sys, cpuid, sm, frame);
      case Begin(sys, frame, cpuid, state, expl, flag) =>
      case Link(sys, frame, cpuid, lsm, context, ends, sm) => LinkGoesIff(s, sys, cpuid, frame, lsm, context, ends, sm);
      case SyscallLink(sys, frame, cpuid, lsm, ends, sm) => HoldGoesIff(s, sys, cpuid, frame, lsm, ends, sm);
      case GetId(sys, frame, cpuid) => GetIdGoesIff(s, sys, cpuid, frame);
      case HardwareBegin(flag, sys, frame, sm, state) => HwBeginGoesIff(s, flag, sys, frame, sm, state);
      case HardwareQueue(op, flag, sys, frame, sm, qSys, q) => HwQueueGoesIff(s, op, flag, sys, frame, sm, qSys, q);
      case SoftwareQueue(op, sys, frame, cpuid, q) => SwQueueGoesIff(s, op, sys, frame, cpuid, q);
      case Wait(_, _, sys, frame, cpuid, q, ends, sm) => WaitGoesIff(s, c.Awaited(), sys, frame, cpuid, q, ends, sm);
      case CheckQueue(sys, q) => CheckGoesIff(s, sys, q);
      case End(sys, frame, cpuid, state) =>
      case Identify(sys, frame, cpuid, id) =>
      case Tick(now) =>
    }
  }

  ghost predicate MayRun(s: Core, calls: seq<Call>) {
    forall i :: 0 <= i < |calls| && After(s, calls[..i]).Goes? ==> MayCall(After(s, calls[..i]).s, calls[i])
  }

  /** A run goes on to its end exactly when each of its calls may be made where it is made. */
  lemma {:induction false} RunGoesIff(s: Core, calls: seq<Call>)
    requires CoreOk(s) && WellTypedAll(calls)
    ensures After(s, calls).Goes? <==> MayRun(s, calls)
    decreases |calls|
  {
    hide Inv, Next, MayCall;
    if calls != [] {
      var n := |calls| - 1;
      var before := calls[..n];
      RunGoesIff(s, before);
      forall i | 0 <= i < n ensures calls[..i] == before[..i] { }
      if After(s, before).Goes? {
        RunSteady(s, before, n);
        assert before[..n] == before;
        NextGoesIff(After(s, before).s, calls[n]);
      }
    }
  }
}
