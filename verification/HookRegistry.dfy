/**
  LSPlant's bookkeeping as one state: method records, the hook registry, the
  deoptimization sets, internal method ids and class-initialisation snapshots.
*/
module HookRegistry {
  import opened Wrappers

  type Id = nat           // an ArtMethod
  type ClassDef = nat
  type Thread = nat
  type Code = nat         // an entry point; 0 is null
  type JniId = nat        // a jmethodID
  type Flags = set<nat>   // an access-flag word, by the numbers of its set bits

  // ---------- method records ----------

  /** The fields LSPlant reads or writes, and everything else in `rest`. */
  datatype Method = Method(flags: Flags, entry: Code, interpreter: Code, cls: ClassDef, rest: int)

  /** Flag values that depend on the platform version, and whether records have an interpreter entry. */
  datatype Platform = Platform(
    dontBother: Flags, preCompiled: Flags, fast: Flags, intrinsic: Flags,
    hasInterpreterEntry: bool, compiledBridge: Code, interpreterBridge: Code)

  const AccPublic: Flags := {0}
  const AccPrivate: Flags := {1}
  const AccProtected: Flags := {2}
  const AccStatic := 3
  const AccNative := 8

  predicate IsStatic(m: Method) { AccStatic in m.flags }

  predicate IsNative(m: Method) { AccNative in m.flags }

  function NonIntrinsic(p: Platform, m: Method): Method { m.(flags := m.flags - p.intrinsic) }

  function NonCompilable(p: Platform, m: Method): Method {
    m.(flags := m.flags + p.dontBother - p.preCompiled)
  }

  function NonFast(p: Platform, m: Method): Method { m.(flags := m.flags - p.fast) }

  function AsPrivate(m: Method): Method {
    m.(flags := m.flags + AccPrivate - AccProtected - AccPublic)
  }

  function WithEntry(p: Platform, m: Method, code: Code): Method {
    if p.hasInterpreterEntry then m.(entry := code, interpreter := p.compiledBridge) else m.(entry := code)
  }

  /** Records of target and backup after DoHook. */
  function HookedTarget(p: Platform, m: Method, trampoline: Code): Method {
    WithEntry(p, NonCompilable(p, NonFast(p, NonCompilable(p, NonIntrinsic(p, m)))), trampoline)
  }

  function BackupRecord(p: Platform, m: Method): Method {
    var copy := NonCompilable(p, NonIntrinsic(p, m));
    if IsStatic(copy) then copy else AsPrivate(copy)
  }

  /** Record of the target after DoUnHook: the backup's fields with the target's own flags. */
  function Unhooked(target: Method, backup: Method): Method { backup.(flags := target.flags) }

  /** Intrinsic, precompiled and fast-interpreter bits cleared, the do-not-compile bit set. */
  function HookedFlags(p: Platform, f: Flags): Flags {
    f - (p.intrinsic + p.preCompiled + p.fast) + (p.dontBother - p.preCompiled)
  }

  /** Hooking and unhooking a method restores every field of its record except those flag bits. */
  lemma RecordRoundTrip(p: Platform, m: Method, trampoline: Code)
    ensures HookedTarget(p, m, trampoline).flags == HookedFlags(p, m.flags)
    ensures Unhooked(HookedTarget(p, m, trampoline), BackupRecord(p, m)) == m.(flags := HookedFlags(p, m.flags))
  {
    assert HookedTarget(p, m, trampoline).flags == HookedFlags(p, m.flags);
  }

  // ---------- internal method ids ----------

  /** Replaces the first occurrence of an id from position k on. */
  function Propagate(ids: seq<JniId>, was: JniId, now: JniId, k: nat): (r: seq<JniId>)
    requires k <= |ids|
    ensures |r| == |ids|
    decreases |ids| - k
  {
    if k == |ids| then ids else if ids[k] == was then ids[k := now] else Propagate(ids, was, now, k + 1)
  }

  /** With a backup id that is not in the table, unhooking undoes the replacement. */
  lemma {:induction false} PropagateBack(ids: seq<JniId>, target: JniId, backup: JniId, k: nat, from: nat)
    requires from <= k <= |ids| && backup !in ids
    requires forall j :: from <= j < k ==> ids[j] != target
    ensures Propagate(Propagate(ids, target, backup, k), backup, target, from) == ids
    decreases |ids| - k, k - from
  {
    if from < k {
      PropagateBack(ids, target, backup, k, from + 1);
      PropagateKeeps(ids, target, backup, k, from);
    } else if k < |ids| {
      if ids[k] == target {
        assert ids[k := backup][k := target] == ids;
      } else {
        PropagateBack(ids, target, backup, k + 1, k);
      }
    }
  }

  lemma {:induction false} PropagateKeeps(ids: seq<JniId>, was: JniId, now: JniId, k: nat, j: nat)
    requires j < k <= |ids|
    ensures Propagate(ids, was, now, k)[j] == ids[j]
    decreases |ids| - k
  {
    if k < |ids| && ids[k] != was { PropagateKeeps(ids, was, now, k + 1, j); }
  }

  // ---------- the state ----------

  /** Registry entry: a target's carries the reflected backup, a backup's does not. */
  datatype Link = Link(reflected: Option<int>, other: Id)

  type Snapshot = map<Id, Code>

  datatype State = State(
    art: map<Id, Method>,
    hooked: map<Id, Link>,
    classes: map<ClassDef, set<Id>>,
    deoptimized: set<Id>,
    deoptimizedClasses: map<ClassDef, set<Id>>,
    proxied: set<Id>,
    jit: seq<(Id, Id)>,
    ids: seq<JniId>,
    snapshots: map<Thread, map<ClassDef, Snapshot>>)

  const Blank := Method({}, 0, 0, 0, 0)

  function Rec(s: State, m: Id): Method { if m in s.art then s.art[m] else Blank }

  function Put(s: State, m: Id, r: Method): State { s.(art := s.art[m := r]) }

  function Entry(s: State, m: Id): Code { Rec(s, m).entry }

  predicate IsTarget(s: State, m: Id) { m in s.hooked && s.hooked[m].reflected.Some? }

  /** IsHooked: the backup of a hooked target. */
  function BackupOf(s: State, m: Id): Option<Id> { if IsTarget(s, m) then Some(s.hooked[m].other) else None }

  function Members(classes: map<ClassDef, set<Id>>, c: ClassDef): set<Id> { if c in classes then classes[c] else {} }

  // ---------- Hook and UnHook ----------

  /** One call of Hook, with what the runtime supplies: the generated methods and the trampoline, if any. */
  datatype HookCall = HookCall(
    target: Id, hook: Id, backup: Id, reflected: int,
    targetId: JniId, backupId: JniId, trampoline: Option<Code>, isProxy: bool)

  function RecordDeoptimized(s: State, c: ClassDef, m: Id): State {
    s.(deoptimizedClasses := s.deoptimizedClasses[c := Members(s.deoptimizedClasses, c) + {m}],
       deoptimized := s.deoptimized + {m})
  }

  /** insert of two pairs: keys already present keep their value. */
  function Inserted(hooked: map<Id, Link>, m: Id, link: Link): map<Id, Link> {
    if m in hooked then hooked else hooked[m := link]
  }

  function RecordHooked(s: State, call: HookCall): State {
    var c := Rec(s, call.target).cls;
    s.(classes := s.classes[c := Members(s.classes, c) + {call.target}],
       hooked := Inserted(Inserted(s.hooked, call.target, Link(Some(call.reflected), call.backup)),
                          call.backup, Link(None, call.target)))
  }

  function DoHook(p: Platform, s: State, call: HookCall, trampoline: Code): State {
    var m := Rec(s, call.target);
    Put(Put(s, call.backup, BackupRecord(p, m)), call.target, HookedTarget(p, m, trampoline))
  }

  function Hook(p: Platform, s: State, call: HookCall): State {
    if call.target in s.hooked || call.trampoline.None? then s
    else
      var patched := DoHook(p, s, call, call.trampoline.value);
      var renamed := patched.(ids := Propagate(patched.ids, call.targetId, call.backupId, 0));
      var recorded := RecordHooked(renamed, call);
      var moved :=
        if call.isProxy then recorded.(proxied := recorded.proxied + {call.backup})
        else recorded.(jit := recorded.jit + [(call.target, call.backup)]);
      RecordDeoptimized(moved, Rec(moved, call.hook).cls, call.backup)
  }

  function RemoveMember(classes: map<ClassDef, set<Id>>, c: ClassDef, m: Id): map<ClassDef, set<Id>> {
    if c !in classes then classes
    else if classes[c] - {m} == {} then classes - {c}
    else classes[c := classes[c] - {m}]
  }

  function UnHook(s: State, target: Id, targetId: JniId, backupId: JniId): State {
    if !IsTarget(s, target) then s
    else
      var backup := s.hooked[target].other;
      var r := s.(
        hooked := s.hooked - {target} - {backup},
        proxied := s.proxied - {backup},
        classes := RemoveMember(s.classes, Rec(s, target).cls, target),
        ids := Propagate(s.ids, backupId, targetId, 0));
      Put(r, target, Unhooked(Rec(s, target), Rec(s, backup)))
  }

  // ---------- runtime activity ----------

  /** Deoptimize: the backup of a hooked method is sent to the interpreter, never the method itself. */
  function Deoptimize(p: Platform, s: State, m: Id): State {
    var recorded := RecordDeoptimized(s, Rec(s, m).cls, m);
    var at := if IsTarget(s, m) then s.hooked[m].other else m;
    if IsNative(Rec(s, at)) then recorded
    else Put(recorded, at, WithEntry(p, Rec(s, at), p.interpreterBridge))
  }

  /** MaybeUseBackupMethod. */
  function MaybeUseBackup(s: State, m: Id, quick: Code): Id {
    if IsTarget(s, m) && Entry(s, m) != quick then s.hooked[m].other else m
  }

  /** The three instrumentation hooks: `quick` is the code argument, or null when there is none. */
  function Instrument(s: State, m: Id, quick: Code, code: Code): State {
    if m in s.deoptimized then s
    else
      var at := MaybeUseBackup(s, m, quick);
      Put(s, at, Rec(s, at).(entry := code))
  }

  // ---------- the registry invariant ----------

  ghost predicate Involution(s: State) {
    forall m {:trigger LinkOk(s, m)} :: m in s.hooked ==> LinkOk(s, m)
  }

  ghost predicate LinkOk(s: State, m: Id) requires m in s.hooked {
    var other := s.hooked[m].other;
    && other != m && other in s.hooked && s.hooked[other].other == m
    && (s.hooked[m].reflected.Some? <==> s.hooked[other].reflected.None?)
    && Rec(s, m).cls == Rec(s, other).cls
  }

  predicate Listed(s: State, c: ClassDef, m: Id) { c in s.classes && m in s.classes[c] }

  function Cls(s: State, m: Id): ClassDef { Rec(s, m).cls }

  /** hooked_classes_ is the partition of the targets by class. */
  ghost predicate Partition(s: State) {
    (forall c :: c in s.classes ==> s.classes[c] != {}) &&
    (forall c, m {:trigger Listed(s, c, m)} :: Listed(s, c, m) ==> IsTarget(s, m) && Cls(s, m) == c) &&
    (forall m {:trigger Listed(s, Cls(s, m), m)} :: IsTarget(s, m) ==> Listed(s, Cls(s, m), m))
  }

  ghost predicate Inv(s: State) { Involution(s) && Partition(s) }

  const Empty := State(map[], map[], map[], {}, map[], {}, [], [], map[])

  type Good = s: State | Inv(s) witness Empty

  /** Generated methods are new: neither is in the registry, and the backup is not the target. */
  predicate FreshBackup(s: State, call: HookCall) {
    call.backup !in s.hooked && call.backup != call.target && call.hook != call.backup && call.hook != call.target
  }

  /** What a successful Hook does to the registry. */
  ghost predicate Linked(s: State, t: State, target: Id, backup: Id, reflected: int) {
    t.hooked == s.hooked[target := Link(Some(reflected), backup)][backup := Link(None, target)] &&
    t.classes == s.classes[Cls(s, target) := Members(s.classes, Cls(s, target)) + {target}] &&
    Cls(t, backup) == Cls(s, target) &&
    forall m {:trigger Cls(t, m)} :: m != backup ==> Cls(t, m) == Cls(s, m)
  }

  lemma HookLinks(p: Platform, s: State, call: HookCall)
    requires FreshBackup(s, call) && call.target !in s.hooked && call.trampoline.Some?
    ensures Linked(s, Hook(p, s, call), call.target, call.backup, call.reflected)
  {
    var patched := DoHook(p, s, call, call.trampoline.value);
    assert Cls(patched, call.target) == Cls(s, call.target) && Cls(patched, call.backup) == Cls(s, call.target);
    var t := Hook(p, s, call);
    assert t.art == patched.art;
  }

  lemma LinkedInvolution(s: State, t: State, target: Id, backup: Id, reflected: int)
    requires Linked(s, t, target, backup, reflected) && Involution(s)
    requires target !in s.hooked && backup !in s.hooked && target != backup
    ensures Involution(t)
  {
    forall m | m in t.hooked ensures LinkOk(t, m) {
      if m != target && m != backup {
        assert LinkOk(s, m);
        assert Cls(t, m) == Cls(s, m) && Cls(t, s.hooked[m].other) == Cls(s, s.hooked[m].other);
      } else {
        assert Cls(t, target) == Cls(s, target);
      }
    }
  }

  lemma LinkedPartition(s: State, t: State, target: Id, backup: Id, reflected: int)
    requires Linked(s, t, target, backup, reflected) && Partition(s)
    requires target !in s.hooked && backup !in s.hooked && target != backup
    ensures Partition(t)
  {
    forall c, m | Listed(t, c, m) ensures IsTarget(t, m) && Cls(t, m) == c {
      if m != target {
        assert Listed(s, c, m);
        assert IsTarget(s, m) && Cls(t, m) == Cls(s, m);
      } else {
        assert Cls(t, m) == Cls(s, m);
        assert Listed(s, c, m) ==> IsTarget(s, m);
      }
    }
    forall m | IsTarget(t, m) ensures Listed(t, Cls(t, m), m) {
      if m != target { assert IsTarget(s, m) && Cls(t, m) == Cls(s, m) && Listed(s, Cls(s, m), m); }
    }
  }

  /** Hooking with a fresh backup keeps the registry consistent. */
  lemma HookKeeps(p: Platform, s: State, call: HookCall)
    requires Inv(s) && FreshBackup(s, call)
    ensures Inv(Hook(p, s, call))
  {
    if call.target !in s.hooked && call.trampoline.Some? {
      var t := Hook(p, s, call);
      HookLinks(p, s, call);
      LinkedInvolution(s, t, call.target, call.backup, call.reflected);
      LinkedPartition(s, t, call.target, call.backup, call.reflected);
    }
  }

  ghost predicate Unlinked(s: State, t: State, target: Id, backup: Id) {
    t.hooked == s.hooked - {target} - {backup} &&
    t.classes == RemoveMember(s.classes, Cls(s, target), target) &&
    forall m {:trigger Cls(t, m)} :: Cls(t, m) == Cls(s, m)
  }

  lemma UnHookUnlinks(s: State, target: Id, targetId: JniId, backupId: JniId)
    requires Inv(s) && IsTarget(s, target)
    ensures Unlinked(s, UnHook(s, target, targetId, backupId), target, s.hooked[target].other)
  {
    assert LinkOk(s, target);
  }

  lemma UnlinkedInvolution(s: State, t: State, target: Id, backup: Id)
    requires Unlinked(s, t, target, backup) && Involution(s) && IsTarget(s, target) && s.hooked[target].other == backup
    ensures Involution(t)
  {
    assert LinkOk(s, target);
    forall m | m in t.hooked ensures LinkOk(t, m) {
      assert LinkOk(s, m);
      assert Cls(t, m) == Cls(s, m) && Cls(t, s.hooked[m].other) == Cls(s, s.hooked[m].other);
    }
  }

  lemma UnlinkedPartition(s: State, t: State, target: Id, backup: Id)
    requires Unlinked(s, t, target, backup) && Inv(s) && IsTarget(s, target) && s.hooked[target].other == backup
    ensures Partition(t)
  {
    assert LinkOk(s, target);
    forall c, m | Listed(t, c, m) ensures IsTarget(t, m) && Cls(t, m) == c {
      assert Listed(s, c, m) && m != target;
      assert Cls(t, m) == Cls(s, m);
    }
    forall m | IsTarget(t, m) ensures Listed(t, Cls(t, m), m) {
      assert IsTarget(s, m) && Cls(t, m) == Cls(s, m) && Listed(s, Cls(s, m), m) && m != target;
    }
  }

  lemma UnHookKeeps(s: State, target: Id, targetId: JniId, backupId: JniId)
    requires Inv(s)
    ensures Inv(UnHook(s, target, targetId, backupId))
  {
    if IsTarget(s, target) {
      var t, backup := UnHook(s, target, targetId, backupId), s.hooked[target].other;
      UnHookUnlinks(s, target, targetId, backupId);
      UnlinkedInvolution(s, t, target, backup);
      UnlinkedPartition(s, t, target, backup);
    }
  }

  // ---------- runtime activity leaves the registry and the trampolines alone ----------

  /** Same registry and same class of every method. */
  ghost predicate SameRegistry(s: State, t: State) {
    t.hooked == s.hooked && t.classes == s.classes && forall m {:trigger Cls(t, m)} :: Cls(t, m) == Cls(s, m)
  }

  lemma RegistryOnly(s: Good, t: State) returns (g: Good)
    requires SameRegistry(s, t)
    ensures g == t
  {
    forall m | m in t.hooked ensures LinkOk(t, m) {
      assert LinkOk(s, m);
      assert Cls(t, m) == Cls(s, m) && Cls(t, s.hooked[m].other) == Cls(s, s.hooked[m].other);
    }
    forall c, m | Listed(t, c, m) ensures IsTarget(t, m) && Cls(t, m) == c {
      assert Listed(s, c, m);
      assert Cls(t, m) == Cls(s, m);
    }
    forall m | IsTarget(t, m) ensures Listed(t, Cls(t, m), m) {
      assert IsTarget(s, m) && Cls(t, m) == Cls(s, m) && Listed(s, Cls(s, m), m);
    }
    assert Involution(t) && Partition(t);
    g := t;
  }

  /** Overwriting a record that keeps its class. */
  lemma PutSameClass(s: State, m: Id, r: Method)
    requires r.cls == Cls(s, m)
    ensures SameRegistry(s, Put(s, m, r))
  {
  }

  /** The backup of any target is itself no target. */
  lemma BackupIsNoTarget(s: Good, m: Id)
    requires IsTarget(s, m)
    ensures s.hooked[m].other != m && !IsTarget(s, s.hooked[m].other)
  {
    assert LinkOk(s, m);
  }

  /** Deoptimizing any method leaves the entry point of every hooked method as it is. */
  lemma DeoptimizeSpares(p: Platform, s: Good, m: Id, target: Id)
    requires IsTarget(s, target)
    ensures Entry(Deoptimize(p, s, m), target) == Entry(s, target)
  {
    if IsTarget(s, m) { BackupIsNoTarget(s, m); }
  }

  lemma DeoptimizeKeeps(p: Platform, s: Good, m: Id)
    ensures SameRegistry(s, Deoptimize(p, s, m))
  {
    var at := if IsTarget(s, m) then s.hooked[m].other else m;
    PutSameClass(s, at, WithEntry(p, Rec(s, at), p.interpreterBridge));
  }

  /**
    A code update of the instrumentation changes the entry point of a hooked method exactly when it names that method,
    not deoptimized, passes the very code the method has, and ART then installs something else.
  */
  lemma InstrumentSpares(s: Good, m: Id, quick: Code, code: Code, target: Id)
    requires IsTarget(s, target)
    ensures Entry(Instrument(s, m, quick, code), target) == Entry(s, target) <==>
              !(m == target && m !in s.deoptimized && Entry(s, m) == quick && code != quick)
  {
    if IsTarget(s, m) { BackupIsNoTarget(s, m); }
  }

  lemma InstrumentKeeps(s: Good, m: Id, quick: Code, code: Code)
    ensures SameRegistry(s, Instrument(s, m, quick, code))
  {
    var at := MaybeUseBackup(s, m, quick);
    PutSameClass(s, at, Rec(s, at).(entry := code));
  }

  // ---------- hook, then unhook ----------

  /** Records, ids and proxies after a successful Hook. */
  ghost predicate Patched(p: Platform, s: State, h: State, call: HookCall, trampoline: Code) {
    Rec(h, call.target) == HookedTarget(p, Rec(s, call.target), trampoline) &&
    Rec(h, call.backup) == BackupRecord(p, Rec(s, call.target)) &&
    (forall m :: m != call.target && m != call.backup ==> Rec(h, m) == Rec(s, m)) &&
    h.ids == Propagate(s.ids, call.targetId, call.backupId, 0) &&
    h.proxied == if call.isProxy then s.proxied + {call.backup} else s.proxied
  }

  /** Everything but the flags of the target, the backup's record, the jit list and the deoptimization sets is restored. */
  ghost predicate Restored(p: Platform, s: State, t: State, target: Id, backup: Id) {
    t.hooked == s.hooked && t.classes == s.classes && t.proxied == s.proxied && t.ids == s.ids &&
    Rec(t, target) == Rec(s, target).(flags := HookedFlags(p, Rec(s, target).flags)) &&
    forall m :: m != target && m != backup ==> Rec(t, m) == Rec(s, m)
  }

  lemma UnHookRecords(p: Platform, s: State, h: State, call: HookCall, trampoline: Code)
    requires Patched(p, s, h, call, trampoline) && IsTarget(h, call.target) && h.hooked[call.target].other == call.backup
    ensures var t := UnHook(h, call.target, call.targetId, call.backupId);
            && Rec(t, call.target) == Rec(s, call.target).(flags := HookedFlags(p, Rec(s, call.target).flags))
            && forall m :: m != call.target && m != call.backup ==> Rec(t, m) == Rec(s, m)
  {
    RecordRoundTrip(p, Rec(s, call.target), trampoline);
  }

  lemma UnHookRegistry(s: State, h: State, call: HookCall)
    requires Linked(s, h, call.target, call.backup, call.reflected) && FreshBackup(s, call) && call.target !in s.hooked
    requires call.backupId !in s.ids && call.backup !in s.proxied
    requires h.ids == Propagate(s.ids, call.targetId, call.backupId, 0)
    requires h.proxied == s.proxied + {call.backup} || h.proxied == s.proxied
    requires var c := Cls(s, call.target);
             RemoveMember(s.classes[c := Members(s.classes, c) + {call.target}], c, call.target) == s.classes
    ensures var t := UnHook(h, call.target, call.targetId, call.backupId);
            t.hooked == s.hooked && t.classes == s.classes && t.proxied == s.proxied && t.ids == s.ids
  {
    PropagateBack(s.ids, call.targetId, call.backupId, 0, 0);
    assert Cls(h, call.target) == Cls(s, call.target);
    assert h.hooked - {call.target} - {call.backup} == s.hooked;
  }

  /** Unhooking right after hooking restores the registry, the id table and every record field but the flags. */
  lemma HookUnHookRoundTrip(p: Platform, s: State, call: HookCall)
    requires Inv(s) && FreshBackup(s, call) && call.target !in s.hooked && call.trampoline.Some?
    requires call.backupId !in s.ids && call.backup !in s.proxied
    ensures Restored(p, s, UnHook(Hook(p, s, call), call.target, call.targetId, call.backupId), call.target, call.backup)
  {
    HookLinks(p, s, call);
    HookedRecords(p, s, call);
    MembersBack(s, call.target);
    UnHookRegistry(s, Hook(p, s, call), call);
    UnHookRecords(p, s, Hook(p, s, call), call, call.trampoline.value);
  }

  lemma HookedRecords(p: Platform, s: State, call: HookCall)
    requires FreshBackup(s, call) && call.target !in s.hooked && call.trampoline.Some?
    ensures Patched(p, s, Hook(p, s, call), call, call.trampoline.value)
  {
  }

  lemma MembersBack(s: State, target: Id)
    requires Inv(s) && target !in s.hooked
    ensures var c := Cls(s, target);
            RemoveMember(s.classes[c := Members(s.classes, c) + {target}], c, target) == s.classes
  {
    var c := Cls(s, target);
    assert !Listed(s, c, target);
  }
}
