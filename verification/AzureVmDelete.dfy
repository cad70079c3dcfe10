/**
  Deleting an Azure VM with its OS disk and network interfaces but not its data disks
  (functions/bins/vm-delete-azure/src/main.rs). The function sets the delete options with a PATCH
  and deletes the VM with a DELETE, both only if the VM still has the ETag it holds, while others
  may change the VM at any time.
 */
module AzureVmDelete {
  import opened Wrappers
  import opened Strings
  import opened ResourceIds

  datatype Json = Null | Str(value: string) | Obj(fields: map<string, Json>) | Raw(text: string)

  type Entry = map<string, Json>

  const DELETE_OPTION := "deleteOption"
  const PROPERTIES := "properties"
  const MANAGED_DISK := "managedDisk"
  const AKS_TAG_PREFIX := "aks-managed-"

  /** A VM: the fields the function reads, and the `rest`. */
  datatype Vm = Vm(
    tags: set<string>, provisioningState: string, scaleSet: Option<string>,
    osDisk: Option<Entry>, dataDisks: seq<Entry>, nics: seq<Entry>, rest: string)

  function DeleteOption(e: Entry): Option<string> {
    if DELETE_OPTION in e && e[DELETE_OPTION].Str? then Some(e[DELETE_OPTION].value) else None
  }

  predicate IsDelete(e: Entry) {
    DeleteOption(e) == Some("Delete")
  }

  predicate NicIsDelete(nic: Entry) {
    PROPERTIES in nic && nic[PROPERTIES].Obj? && IsDelete(nic[PROPERTIES].fields)
  }

  /** The OS disk and every network interface go with the VM, and no data disk does. */
  predicate DeleteOptionsSet(vm: Vm) {
    && vm.osDisk.Some? && IsDelete(vm.osDisk.value)
    && (forall d <- vm.dataDisks :: !IsDelete(d))
    && (forall n <- vm.nics :: NicIsDelete(n))
  }

  datatype GuardName = Exists | Standalone | NotAks | ManagedOsDisk | Idle

  datatype Guard = Guard(name: GuardName, passed: bool)

  predicate Passed(guards: seq<Guard>) {
    forall g <- guards :: g.passed
  }

  predicate IsAks(vm: Vm) {
    exists tag <- vm.tags :: StartsWith(Lower(tag), AKS_TAG_PREFIX)
  }

  predicate HasManagedOsDisk(vm: Vm) {
    vm.osDisk.Some? && MANAGED_DISK in vm.osDisk.value && vm.osDisk.value[MANAGED_DISK].Obj?
  }

  function Evaluate(vm: Option<Vm>): seq<Guard> {
    match vm
    case None => [Guard(Exists, false)]
    case Some(v) =>
      [Guard(Exists, true), Guard(Standalone, v.scaleSet.None?), Guard(NotAks, !IsAks(v)),
       Guard(ManagedOsDisk, HasManagedOsDisk(v)),
       Guard(Idle, v.provisioningState == "Succeeded" || v.provisioningState == "Failed")]
  }

  /** Azure Kubernetes Service put the tag on a node. */
  predicate IsAksTag(tag: string) {
    |tag| >= 12 && Lower(tag[..12]) == "aks-managed-"
  }

  /** What the guards ask: a VM that is there, in no scale set, no node of Azure Kubernetes Service,
      with a managed OS disk, and not changing. */
  predicate IsStandalone(vm: Vm) {
    && vm.scaleSet.None? && (forall tag <- vm.tags :: !IsAksTag(tag))
    && vm.osDisk.Some? && "managedDisk" in vm.osDisk.value && vm.osDisk.value["managedDisk"].Obj?
    && (vm.provisioningState == "Succeeded" || vm.provisioningState == "Failed")
  }

  lemma LowerPrefix(s: string, n: nat)
    requires n <= |s|
    ensures Lower(s)[..n] == Lower(s[..n])
  {
  }

  lemma IsAksMeans(vm: Vm)
    ensures IsAks(vm) <==> exists tag <- vm.tags :: IsAksTag(tag)
  {
    assert |AKS_TAG_PREFIX| == 12;
    forall tag | tag in vm.tags
      ensures StartsWith(Lower(tag), AKS_TAG_PREFIX) == IsAksTag(tag)
    {
      if |tag| >= 12 {
        LowerPrefix(tag, 12);
      }
    }
  }

  lemma GuardsPassExactly(guards: seq<Guard>)
    requires |guards| == 5
    ensures Passed(guards) <==>
            guards[0].passed && guards[1].passed && guards[2].passed && guards[3].passed && guards[4].passed
  {
    assert guards[0] in guards && guards[1] in guards && guards[2] in guards && guards[3] in guards && guards[4] in guards;
  }

  /** The guards pass exactly for such a VM. */
  lemma GuardsMean(vm: Option<Vm>)
    ensures Passed(Evaluate(vm)) <==> vm.Some? && IsStandalone(vm.value)
  {
    match vm
    case None =>
      assert Guard(Exists, false) in Evaluate(vm);
    case Some(v) =>
      IsAksMeans(v);
      GuardsPassExactly(Evaluate(vm));
  }

  predicate OptionIs(e: Entry, option: string) {
    "deleteOption" in e && e["deleteOption"] == Str(option)
  }

  predicate NicOptionIs(n: Entry, option: string) {
    "properties" in n && n["properties"].Obj? && OptionIs(n["properties"].fields, option)
  }

  /** The OS disk and every network interface are marked to go with the VM, and no data disk is. */
  predicate OptionsAreMarked(vm: Vm) {
    && vm.osDisk.Some? && OptionIs(vm.osDisk.value, "Delete")
    && (forall d <- vm.dataDisks :: !OptionIs(d, "Delete"))
    && forall n <- vm.nics :: NicOptionIs(n, "Delete")
  }

  lemma DeleteOptionsMean(vm: Vm)
    ensures DeleteOptionsSet(vm) <==> OptionsAreMarked(vm)
  {
  }

  /** The lists a PATCH sends, which replace the VM's. */
  datatype Body = Body(dataDisks: seq<Entry>, nics: seq<Entry>)

  function Detached(disk: Entry): Entry {
    disk[DELETE_OPTION := Str("Detach")]
  }

  function Properties(nic: Entry): Entry {
    if PROPERTIES in nic && nic[PROPERTIES].Obj? then nic[PROPERTIES].fields else map[]
  }

  function Deleted(nic: Entry): Entry {
    nic[PROPERTIES := Obj(Properties(nic)[DELETE_OPTION := Str("Delete")])]
  }

  function DeleteOptionsBody(vm: Vm): Body {
    Body(seq(|vm.dataDisks|, i requires 0 <= i < |vm.dataDisks| => Detached(vm.dataDisks[i])),
         seq(|vm.nics|, i requires 0 <= i < |vm.nics| => Deleted(vm.nics[i])))
  }

  /** The loops over the two lists. */
  method BuildBody(vm: Vm) returns (body: Body)
    ensures body == DeleteOptionsBody(vm)
  {
    var dataDisks := DetachAll(vm);
    var nics := DeleteAll(vm);
    body := Body(dataDisks, nics);
  }

  method DetachAll(vm: Vm) returns (dataDisks: seq<Entry>)
    ensures dataDisks == DeleteOptionsBody(vm).dataDisks
  {
    dataDisks := vm.dataDisks;
    for i := 0 to |dataDisks|
      invariant |dataDisks| == |vm.dataDisks|
      invariant dataDisks == DeleteOptionsBody(vm).dataDisks[..i] + vm.dataDisks[i..]
    {
      dataDisks := dataDisks[i := dataDisks[i][DELETE_OPTION := Str("Detach")]];
    }
  }

  method DeleteAll(vm: Vm) returns (nics: seq<Entry>)
    ensures nics == DeleteOptionsBody(vm).nics
  {
    nics := vm.nics;
    for i := 0 to |nics|
      invariant |nics| == |vm.nics|
      invariant nics == DeleteOptionsBody(vm).nics[..i] + vm.nics[i..]
    {
      var nic := nics[i];
      if PROPERTIES !in nic || !nic[PROPERTIES].Obj? {
        nic := nic[PROPERTIES := Obj(map[])];
      }
      nic := nic[PROPERTIES := Obj(nic[PROPERTIES].fields[DELETE_OPTION := Str("Delete")])];
      assert nic == Deleted(vm.nics[i]);
      nics := nics[i := nic];
    }
  }

  /** What the PATCH makes of a VM, which then is in some provisioning state. */
  function Patched(vm: Vm, body: Body, state: string): Vm {
    vm.(provisioningState := state,
        osDisk := Some(vm.osDisk.GetOr(map[])[DELETE_OPTION := Str("Delete")]),
        dataDisks := body.dataDisks, nics := body.nics)
  }

  // ---------------------------------------------------------------------------------------
  // The PATCH sets the options and nothing else.

  /** Two entries that differ in the field at most. */
  predicate SameBut(a: Entry, b: Entry, field: string) {
    a - {field} == b - {field}
  }

  lemma PatchSetsTheOptions(vm: Vm, state: string)
    ensures DeleteOptionsSet(Patched(vm, DeleteOptionsBody(vm), state))
    ensures OptionsAreMarked(Patched(vm, DeleteOptionsBody(vm), state))
    ensures forall d <- Patched(vm, DeleteOptionsBody(vm), state).dataDisks :: OptionIs(d, "Detach")
  {
  }

  /** Every entry of the lists keeps its place and every field but the delete option. */
  lemma PatchKeepsTheRest(vm: Vm, state: string)
    ensures var vm' := Patched(vm, DeleteOptionsBody(vm), state);
            && |vm'.dataDisks| == |vm.dataDisks| && |vm'.nics| == |vm.nics|
            && (forall i :: 0 <= i < |vm.dataDisks| ==> SameBut(vm'.dataDisks[i], vm.dataDisks[i], DELETE_OPTION))
            && (forall i :: 0 <= i < |vm.nics| ==>
                  SameBut(vm'.nics[i], vm.nics[i], PROPERTIES) &&
                  SameBut(Properties(vm'.nics[i]), Properties(vm.nics[i]), DELETE_OPTION))
            && vm'.tags == vm.tags && vm'.scaleSet == vm.scaleSet && vm'.rest == vm.rest
            && (vm.osDisk.Some? ==> SameBut(vm'.osDisk.value, vm.osDisk.value, DELETE_OPTION))
  {
  }

  /** A VM whose guards passed still passes them after the PATCH, once it has succeeded. */
  lemma PatchKeepsTheGuards(vm: Vm, state: string)
    requires Passed(Evaluate(Some(vm))) && state == "Succeeded"
    ensures Passed(Evaluate(Some(Patched(vm, DeleteOptionsBody(vm), state))))
  {
  }

  // ---------------------------------------------------------------------------------------
  // Invocations and other writers interleaved. Every change of the VM changes its ETag.

  datatype Server = Server(vm: Option<Vm>, etag: nat)

  /** A VM an invocation holds, with the ETag that came with it, if one did. */
  datatype Held = Held(vm: Vm, etag: Option<nat>)

  /** A conditional write applies if the VM still has the ETag held, or if none is held. */
  predicate Applies(held: Held, s: Server) {
    s.vm.Some? && (held.etag.None? || held.etag == Some(s.etag))
  }

  datatype Event =
    | Other(vm: Option<Vm>)
    | Patch(held: Held, state: string)
    | Delete(held: Held)

  ghost predicate Happens(s: Server, e: Event, s': Server) {
    match e
    case Other(vm) => s'.vm == vm && (if vm == s.vm then s'.etag >= s.etag else s'.etag > s.etag)
    case Patch(held, state) =>
      if Applies(held, s)
      then s'.vm == Some(Patched(s.vm.value, DeleteOptionsBody(held.vm), state)) && s'.etag > s.etag
      else s' == s
    case Delete(held) => if Applies(held, s) then s'.vm == None && s'.etag > s.etag else s' == s
  }

  /** The server's VM and ETag as an invocation gets them. */
  predicate Got(held: Held, s: Server) {
    s.vm == Some(held.vm) && held.etag == Some(s.etag)
  }

  /** A VM whose guards pass and whose options are set: an invocation that reads it deletes it. */
  predicate SafeToDelete(vm: Vm) {
    Passed(Evaluate(Some(vm))) && DeleteOptionsSet(vm)
  }

  predicate MayPatch(vm: Vm) {
    Passed(Evaluate(Some(vm))) && !DeleteOptionsSet(vm)
  }

  /** When an invocation deletes what its PATCH answered. */
  predicate MayDeletePatched(vm: Vm) {
    vm.provisioningState == "Succeeded" && DeleteOptionsSet(vm)
  }

  /** A run: invocations hold what some earlier state was, a PATCH answers the state it made, and
      the ETag always comes with the VM. */
  ghost predicate IsRun(states: seq<Server>, events: seq<Event>) {
    && |states| == |events| + 1
    && forall i :: 0 <= i < |events| ==>
         && Happens(states[i], events[i], states[i + 1])
         && (events[i].Patch? ==>
               MayPatch(events[i].held.vm) && exists j :: 0 <= j <= i && Got(events[i].held, states[j]))
         && (events[i].Delete? ==> Justified(states, events, i))
  }

  /** An invocation deletes a VM it read, or the one its own PATCH answered. */
  ghost predicate Justified(states: seq<Server>, events: seq<Event>, i: nat)
    requires |states| == |events| + 1 && i < |events| && events[i].Delete?
  {
    var held := events[i].held;
    || (SafeToDelete(held.vm) && exists j :: 0 <= j <= i && Got(held, states[j]))
    || (MayDeletePatched(held.vm) &&
        exists j :: 0 <= j < i && events[j].Patch? && Applies(events[j].held, states[j]) && Got(held, states[j + 1]))
  }

  lemma {:induction false} SameEtagSameVm(states: seq<Server>, events: seq<Event>, j: nat, i: nat)
    requires IsRun(states, events) && j <= i < |states|
    ensures states[j].etag <= states[i].etag
    ensures states[j].etag == states[i].etag ==> states[j].vm == states[i].vm
  {
    if j < i {
      SameEtagSameVm(states, events, j, i - 1);
      assert Happens(states[i - 1], events[i - 1], states[i]);
    }
  }

  /** A PATCH that applies does so to exactly the VM read. */
  lemma PatchedIsGuarded(states: seq<Server>, events: seq<Event>, j: nat)
    requires IsRun(states, events) && j < |events| && events[j].Patch? && Applies(events[j].held, states[j])
    ensures var vm := events[j].held.vm;
            MayPatch(vm) && states[j + 1].vm == Some(Patched(vm, DeleteOptionsBody(vm), events[j].state))
  {
    var k :| 0 <= k <= j && Got(events[j].held, states[k]);
    SameEtagSameVm(states, events, k, j);
  }

  lemma SafeMeans(vm: Vm)
    ensures SafeToDelete(vm) <==> IsStandalone(vm) && OptionsAreMarked(vm)
  {
    GuardsMean(Some(vm));
    DeleteOptionsMean(vm);
  }

  lemma DeletedIsSafe(states: seq<Server>, events: seq<Event>, i: nat)
    requires IsRun(states, events) && i < |events| && events[i].Delete? && Applies(events[i].held, states[i])
    ensures SafeToDelete(states[i].vm.value)
  {
    var held := events[i].held;
    assert Justified(states, events, i);
    if SafeToDelete(held.vm) && exists j :: 0 <= j <= i && Got(held, states[j]) {
      var j :| 0 <= j <= i && Got(held, states[j]);
      SameEtagSameVm(states, events, j, i);
    } else {
      var j :| 0 <= j < i && events[j].Patch? && Applies(events[j].held, states[j]) && Got(held, states[j + 1]);
      SameEtagSameVm(states, events, j + 1, i);
      PatchedIsGuarded(states, events, j);
      PatchKeepsTheGuards(events[j].held.vm, events[j].state);
    }
  }

  /** Whenever a DELETE of the function takes effect, under any interleaving, the VM at that moment
      passes the guards, has its OS disk and network interfaces set to go with it, and no data disk. */
  lemma DeletesOnlyWhatIsSafe(states: seq<Server>, events: seq<Event>, i: nat)
    requires IsRun(states, events) && i < |events| && events[i].Delete? && Applies(events[i].held, states[i])
    ensures SafeToDelete(states[i].vm.value)
    ensures IsStandalone(states[i].vm.value) && OptionsAreMarked(states[i].vm.value)
  {
    DeletedIsSafe(states, events, i);
    SafeMeans(states[i].vm.value);
  }

  // ---------------------------------------------------------------------------------------
  // The ETag is what makes the writes safe.

  /** The VM was held when its ETag was `etag`, whether or not that was reported. */
  predicate HeldAt(held: Held, etag: nat) {
    held.etag.Some? ==> held.etag == Some(etag)
  }

  /** What others may have made of the VM since. */
  predicate Since(held: Held, etag: nat, s: Server) {
    s.etag >= etag && (s.etag == etag ==> s.vm == Some(held.vm))
  }

  /** The VM with one more data disk, which goes with it. */
  function WithDoomedDisk(vm: Vm): Vm {
    vm.(dataDisks := vm.dataDisks + [map[DELETE_OPTION := Str("Delete")]])
  }

  lemma DoomedDiskIsDeleted(vm: Vm)
    ensures exists d <- WithDoomedDisk(vm).dataDisks :: IsDelete(d)
  {
    var disks := WithDoomedDisk(vm).dataDisks;
    assert disks[|vm.dataDisks|] in disks && IsDelete(disks[|vm.dataDisks|]);
  }

  /** Without an ETag the DELETE of any VM read can take a data disk that was attached since. */
  lemma WithoutEtagDataCanGo(held: Held, etag: nat)
    requires held.etag.None?
    ensures exists s: Server ::
              Since(held, etag, s) && Applies(held, s) && exists d <- s.vm.value.dataDisks :: IsDelete(d)
  {
    var s := Server(Some(WithDoomedDisk(held.vm)), etag + 1);
    DoomedDiskIsDeleted(held.vm);
    assert Since(held, etag, s) && Applies(held, s);
  }

  /** Whatever others change after a VM was found safe to delete, the DELETE only takes effect on a
      safe one exactly if the VM came with its ETag. */
  lemma WhenDeleteIsSafe(held: Held, etag: nat)
    requires SafeToDelete(held.vm) && HeldAt(held, etag)
    ensures (forall s: Server | Since(held, etag, s) && Applies(held, s) :: SafeToDelete(s.vm.value))
            <==> held.etag.Some?
  {
    if held.etag.None? {
      WithoutEtagDataCanGo(held, etag);
    }
  }

  /** What an invocation holds after its PATCH: what the server made of the VM there was, with the
      ETag if that was answered. */
  function Answer(read: Held, found: Server, state: string, etag: nat, reported: bool): Held
    requires found.vm.Some?
  {
    Held(Patched(found.vm.value, DeleteOptionsBody(read.vm), state), if reported then Some(etag) else None)
  }

  /** A course of events: what the PATCH finds, what it answers, and what the DELETE finds. */
  datatype Course = Course(found: Server, state: string, etag: nat, last: Server)

  /** The PATCH goes through, its answer lets the invocation go on, and the DELETE goes through. */
  predicate Deletes(read: Held, readAt: nat, reported: bool, c: Course) {
    && Since(read, readAt, c.found) && Applies(read, c.found) && c.etag > c.found.etag
    && var answer := Answer(read, c.found, c.state, c.etag, reported);
    && MayDeletePatched(answer.vm) && Since(answer, c.etag, c.last) && Applies(answer, c.last)
  }

  lemma WithEtagsPatchedIsSafe(read: Held, readAt: nat, c: Course)
    requires MayPatch(read.vm) && read.etag == Some(readAt) && Deletes(read, readAt, true, c)
    ensures SafeToDelete(c.last.vm.value)
  {
    PatchKeepsTheGuards(read.vm, c.state);
  }

  /** If the VM was read without its ETag, others can have put it into a scale set by the PATCH. */
  lemma PatchWithoutEtagSkipsGuards(read: Held, readAt: nat, reported: bool) returns (c: Course)
    requires read.etag.None?
    ensures Deletes(read, readAt, reported, c) && !SafeToDelete(c.last.vm.value)
  {
    var found := Server(Some(read.vm.(scaleSet := Some(""))), readAt + 1);
    var answer := Answer(read, found, "Succeeded", readAt + 2, reported);
    PatchSetsTheOptions(read.vm, "Succeeded");
    c := Course(found, "Succeeded", readAt + 2, Server(Some(answer.vm), readAt + 2));
    assert !Evaluate(c.last.vm)[1].passed;
  }

  /** If the PATCH doesn't answer an ETag, others can attach a data disk that goes with the VM. */
  lemma AnswerWithoutEtagLosesData(read: Held, readAt: nat) returns (c: Course)
    requires HeldAt(read, readAt)
    ensures Deletes(read, readAt, false, c) && !SafeToDelete(c.last.vm.value)
  {
    var found := Server(Some(read.vm), readAt);
    var answer := Answer(read, found, "Succeeded", readAt + 1, false);
    PatchSetsTheOptions(read.vm, "Succeeded");
    DoomedDiskIsDeleted(answer.vm);
    c := Course(found, "Succeeded", readAt + 1, Server(Some(WithDoomedDisk(answer.vm)), readAt + 2));
  }

  /** Whatever others change in between, a DELETE after a PATCH only takes effect on a safe VM exactly
      if the VM read and the PATCH's answer both came with their ETags. */
  lemma WhenDeleteAfterPatchIsSafe(read: Held, readAt: nat, reported: bool)
    requires MayPatch(read.vm) && HeldAt(read, readAt)
    ensures (forall c | Deletes(read, readAt, reported, c) :: SafeToDelete(c.last.vm.value))
            <==> read.etag.Some? && reported
  {
    if read.etag.None? {
      var c := PatchWithoutEtagSkipsGuards(read, readAt, reported);
    } else if !reported {
      var c := AnswerWithoutEtagLosesData(read, readAt);
    } else {
      forall c | Deletes(read, readAt, reported, c)
        ensures SafeToDelete(c.last.vm.value)
      {
        WithEtagsPatchedIsSafe(read, readAt, c);
      }
    }
  }

  // ---------------------------------------------------------------------------------------
  // One invocation, step by step.

  datatype Outcome = Planned | Refused | Done | Error

  class Azure {
    var vm: Option<Vm>
    var etag: nat

    constructor (vm: Option<Vm>, etag: nat)
      ensures this.vm == vm && this.etag == etag
    {
      this.vm, this.etag := vm, etag;
    }

    function State(): Server
      reads this
    {
      Server(vm, etag)
    }

    /** Another writer's change, if there is one. */
    method Interfere(change: Option<Option<Vm>>)
      modifies this
      ensures change.None? ==> State() == old(State())
      ensures change.Some? ==> Happens(old(State()), Other(change.value), State())
    {
      if change.Some? {
        vm, etag := change.value, etag + 1;
      }
    }

    /** Answers the updated VM, if the PATCH applies and the answer gets back readable. */
    method PatchVm(held: Held, body: Body, state: string, readable: bool) returns (ok: bool, answer: Option<Held>)
      requires body == DeleteOptionsBody(held.vm)
      modifies this
      ensures Happens(old(State()), Patch(held, state), State()) && ok == Applies(held, old(State()))
      ensures (answer.Some? <==> ok && readable) && (answer.Some? ==> Got(answer.value, State()))
    {
      ok, answer := Applies(held, State()), None;
      if ok {
        vm, etag := Some(Patched(vm.value, body, state)), etag + 1;
        if readable {
          answer := Some(Held(vm.value, Some(etag)));
        }
      }
    }

    method DeleteVm(held: Held) returns (ok: bool)
      modifies this
      ensures Happens(old(State()), Delete(held), State()) && ok == (Applies(held, old(State())) || old(vm).None?)
    {
      ok := Applies(held, State()) || vm.None?;
      if Applies(held, State()) {
        vm, etag := None, etag + 1;
      }
    }

    /** One invocation, with what others change before each of its writes. Returns the VM its
        DELETE removed, if any. With no others about, a VM whose guards pass gets its options set if
        need be and is deleted, or kept if the PATCH hasn't finished. */
    method Handle(plan: bool, state: string, readable: bool,
                  beforePatch: Option<Option<Vm>>, beforeDelete: Option<Option<Vm>>)
        returns (outcome: Outcome, removed: Option<Vm>)
      modifies this
      ensures removed.Some? ==>
                && SafeToDelete(removed.value) && IsStandalone(removed.value) && OptionsAreMarked(removed.value)
                && outcome == Done && vm.None?
      ensures plan || !Passed(Evaluate(old(vm))) ==> State() == old(State()) && outcome != Done
      ensures outcome == Done && removed.None? ==> vm.None?
      ensures !plan && old(vm).Some? && Passed(Evaluate(old(vm))) && beforePatch.None? && beforeDelete.None? ==>
                var left := if DeleteOptionsSet(old(vm).value) then old(vm).value
                            else Patched(old(vm).value, DeleteOptionsBody(old(vm).value), state);
                if DeleteOptionsSet(old(vm).value) || (state == "Succeeded" && readable)
                then outcome == Done && removed == Some(left)
                else outcome == Refused && vm == Some(left)
    {
      removed := None;
      var guards := Evaluate(vm);
      if plan || vm.None? {
        return if plan then Planned else Refused, None;
      }
      if !Passed(guards) {
        return Refused, None;
      }
      var held := Held(vm.value, Some(etag));
      if !DeleteOptionsSet(held.vm) {
        Interfere(beforePatch);
        var body := BuildBody(held.vm);
        PatchKeepsTheGuards(held.vm, "Succeeded");
        PatchSetsTheOptions(held.vm, state);
        var ok, answer := PatchVm(held, body, state, readable);
        if !ok {
          return Error, None;
        }
        if answer.None? || answer.value.vm.provisioningState != "Succeeded" || !DeleteOptionsSet(answer.value.vm) {
          return Refused, None;
        }
        held := answer.value;
      }
      Interfere(beforeDelete);
      var victim := vm;
      var ok := DeleteVm(held);
      if !ok {
        return Error, None;
      }
      if victim.Some? {
        SafeMeans(victim.value);
      }
      return Done, victim;
    }
  }
}
