/**
 * The memory group associations checker: a whole-set validator over the
 * Group Associations records (SMBIOS type 14, section 7.15 of the SMBIOS
 * Reference Specification) that describe which integrated memory
 * controllers ("IMC" groups) belong to which memory dies ("die" groups).
 *
 * Four independent checks run over the whole group sequence and their
 * findings are pooled; the result's key set is the set of messages.
 * Group names are not unique, so groups are a sequence and findings are
 * told apart by handle.
 */
module MemoryGroups {
  import opened Constants
  import opened Records

  /** A Group Associations record: the group's name, its own handle and the handles its items reference. */
  datatype Group = Group(name: string, handle: string, items: seq<string>)

  predicate IsDieGroup(g: Group) {
    "die" <= g.name
  }

  predicate IsControllerGroup(g: Group) {
    "IMC" <= g.name
  }

  /** The two naming conventions exclude each other: no group is both a die and a controller. */
  lemma DieIsNotController(g: Group)
    ensures !(IsDieGroup(g) && IsControllerGroup(g))
  {
    if IsDieGroup(g) {
      assert g.name[0] == 'd' != 'I';
    }
  }

  /** Does die group `g` reference handle `c` among its items? */
  predicate DieLists(g: Group, c: string) {
    IsDieGroup(g) && c in g.items
  }

  /** The handles of the controller groups. */
  function ControllerHandles(groups: seq<Group>): set<string> {
    set g | g in groups && IsControllerGroup(g) :: g.handle
  }

  predicate ListedByDie(groups: seq<Group>, h: string) {
    exists d :: d in groups && DieLists(d, h)
  }

  /** Does `h` resolve to a Group Associations record of the record set? */
  predicate IsGroupAssociationsHandle(records: seq<Record>, h: string) {
    var target := Lookup(records, h);
    target.Some? && target.value.recordType == GroupAssociationsRecord
  }

  /** One finding of the checker; `Message` renders it as the key of the result. */
  datatype Finding =
    | UnlistedController(handle: string, name: string)
    | DieWithoutController(handle: string, name: string)
    | MixedItems(handle: string, name: string)
    | OwnershipConflict(handle: string, name: string, ctrl: string, owner: string)

  function Message(f: Finding): string {
    match f
    case UnlistedController(handle, name) =>
      "Memory Controller Handle " + handle + " (" + name + ") is not listed in any die record."
    case DieWithoutController(handle, name) =>
      "There is no memory controller handle" + " in items of Die Handle " + handle + " (" + name + ")."
    case MixedItems(handle, name) =>
      "Some items in Handle " + handle + " (" + name + ") are not Type 14 handles (Group Associations)."
    case OwnershipConflict(handle, name, ctrl, owner) =>
      "In items of Die Handle " + handle + " (" + name + "), memory controller handle " + ctrl
      + " was belong to another die record (" + owner + ")."
  }

  /** Membership: every controller group whose handle no die group lists. */
  function UnlistedControllers(groups: seq<Group>): (found: set<Finding>)
    ensures forall f :: f in found ==> f.UnlistedController?
    ensures forall g :: g in groups && IsControllerGroup(g) && !ListedByDie(groups, g.handle) ==>
              UnlistedController(g.handle, g.name) in found
    ensures forall f :: f in found ==>
              exists g :: g in groups && IsControllerGroup(g) && !ListedByDie(groups, g.handle) && f == UnlistedController(g.handle, g.name)
  {
    set g | g in groups && IsControllerGroup(g) && !ListedByDie(groups, g.handle) :: UnlistedController(g.handle, g.name)
  }

  /** Die non-emptiness: every die group none of whose items is a controller handle. */
  function DiesWithoutController(groups: seq<Group>): (found: set<Finding>)
    ensures forall f :: f in found ==> f.DieWithoutController?
    ensures forall d :: d in groups && IsDieGroup(d) && (forall h :: h in d.items ==> h !in ControllerHandles(groups)) ==>
              DieWithoutController(d.handle, d.name) in found
    ensures forall f :: f in found ==>
              exists d :: d in groups && IsDieGroup(d) && (forall h :: h in d.items ==> h !in ControllerHandles(groups))
                && f == DieWithoutController(d.handle, d.name)
  {
    set d | d in groups && IsDieGroup(d) && (forall h :: h in d.items ==> h !in ControllerHandles(groups))
      :: DieWithoutController(d.handle, d.name)
  }

  /** Homogeneity: every controller group with some item that is not a Group Associations handle, once per group. */
  function MixedControllers(groups: seq<Group>, records: seq<Record>): (found: set<Finding>)
    ensures forall f :: f in found ==> f.MixedItems?
    ensures forall g, h :: g in groups && IsControllerGroup(g) && h in g.items && !IsGroupAssociationsHandle(records, h) ==>
              MixedItems(g.handle, g.name) in found
    ensures forall f :: f in found ==>
              exists g :: g in groups && IsControllerGroup(g) && (exists h :: h in g.items && !IsGroupAssociationsHandle(records, h))
                && f == MixedItems(g.handle, g.name)
  {
    set g | g in groups && IsControllerGroup(g) && (exists h :: h in g.items && !IsGroupAssociationsHandle(records, h))
      :: MixedItems(g.handle, g.name)
  }

  /** The index of the first die group that lists `c`, scanning in sequence order. */
  function FirstListingDie(groups: seq<Group>, c: string): (first: Option<nat>)
    ensures first.None? <==> forall j :: 0 <= j < |groups| ==> !DieLists(groups[j], c)
    ensures first.Some? ==>
              first.value < |groups| && DieLists(groups[first.value], c)
              && forall j :: 0 <= j < first.value ==> !DieLists(groups[j], c)
  {
    if groups == [] then None
    else
      var n := |groups| - 1;
      var earlier := FirstListingDie(groups[..n], c);
      if earlier.Some? then earlier
      else if DieLists(groups[n], c) then Some(n)
      else None
  }

  /** The handle of the die that owns `c`: the first die group listing it. */
  function Owner(groups: seq<Group>, c: string): Option<string> {
    match FirstListingDie(groups, c)
    case None => None
    case Some(k) => Some(groups[k].handle)
  }

  /** Die group `i` lists controller `c`, which an earlier die group with another handle already owns. */
  predicate Conflicting(groups: seq<Group>, ctrls: set<string>, i: nat, c: string)
    requires i < |groups|
  {
    && DieLists(groups[i], c)
    && c in ctrls
    && Owner(groups[..i], c).Some?
    && Owner(groups[..i], c).value != groups[i].handle
  }

  /** Single ownership: one finding per later die group that lists a controller an earlier die owns. */
  function OwnershipConflicts(groups: seq<Group>, ctrls: set<string>): (found: set<Finding>)
    ensures forall f :: f in found ==> f.OwnershipConflict? && f.ctrl in ctrls && f.owner != f.handle
  {
    set i: nat, c | i < |groups| && c in groups[i].items && Conflicting(groups, ctrls, i, c)
      :: OwnershipConflict(groups[i].handle, groups[i].name, c, Owner(groups[..i], c).value)
  }

  /** All findings of one run: the four checks pooled, none stopping another. */
  function Findings(groups: seq<Group>, records: seq<Record>): (found: set<Finding>)
    ensures forall f :: f in found && f.UnlistedController? ==> f in UnlistedControllers(groups)
    ensures forall f :: f in found && f.DieWithoutController? ==> f in DiesWithoutController(groups)
    ensures forall f :: f in found && f.MixedItems? ==> f in MixedControllers(groups, records)
    ensures forall f :: f in found && f.OwnershipConflict? ==> f in OwnershipConflicts(groups, ControllerHandles(groups))
    ensures UnlistedControllers(groups) + DiesWithoutController(groups) + MixedControllers(groups, records)
            + OwnershipConflicts(groups, ControllerHandles(groups)) <= found
  {
    UnlistedControllers(groups) + DiesWithoutController(groups) + MixedControllers(groups, records)
    + OwnershipConflicts(groups, ControllerHandles(groups))
  }

  /** The key set of `validate()`'s result: the messages of all findings. */
  function Messages(groups: seq<Group>, records: seq<Record>): (messages: set<string>)
    ensures forall f :: f in Findings(groups, records) ==> Message(f) in messages
    ensures forall m :: m in messages ==> exists f :: f in Findings(groups, records) && m == Message(f)
    ensures messages == {} <==> Findings(groups, records) == {}
  {
    var found := Findings(groups, records);
    var rendered := set f | f in found :: Message(f);
    assert found != {} ==> rendered != {} by {
      if found != {} {
        var f :| f in found;
        assert Message(f) in rendered;
      }
    }
    rendered
  }

  /** No controller handle is listed by two die groups with different handles. */
  ghost predicate SingleOwnership(groups: seq<Group>, ctrls: set<string>) {
    forall c, i, j :: 0 <= i < j < |groups| && c in ctrls && DieLists(groups[i], c) && DieLists(groups[j], c)
      ==> groups[i].handle == groups[j].handle
  }

  /** The topology the checker accepts, stated directly. */
  ghost predicate TopologyConsistent(groups: seq<Group>, records: seq<Record>) {
    && (forall g :: g in groups && IsControllerGroup(g) ==> ListedByDie(groups, g.handle))
    && (forall d :: d in groups && IsDieGroup(d) ==> exists h :: h in d.items && h in ControllerHandles(groups))
    && (forall g, h :: g in groups && IsControllerGroup(g) && h in g.items ==> IsGroupAssociationsHandle(records, h))
    && SingleOwnership(groups, ControllerHandles(groups))
  }

  // The ownership scan: a controller -> owning die index built while the
  // die groups are scanned in order, reporting every later claimant.

  datatype ScanState = ScanState(owner: map<string, string>, found: set<Finding>)

  /** One item of die group `d`: record the first owner, or report a claim against another owner. */
  function ScanItem(st: ScanState, d: Group, c: string, ctrls: set<string>): ScanState {
    if c !in ctrls then st
    else if c !in st.owner then st.(owner := st.owner[c := d.handle])
    else if st.owner[c] != d.handle then st.(found := st.found + {OwnershipConflict(d.handle, d.name, c, st.owner[c])})
    else st
  }

  function ScanItems(st: ScanState, d: Group, items: seq<string>, ctrls: set<string>): ScanState
    decreases |items|
  {
    if items == [] then st
    else ScanItem(ScanItems(st, d, items[..|items| - 1], ctrls), d, items[|items| - 1], ctrls)
  }

  function ScanGroups(groups: seq<Group>, ctrls: set<string>): ScanState
    decreases |groups|
  {
    if groups == [] then ScanState(map[], {})
    else
      var st := ScanGroups(groups[..|groups| - 1], ctrls);
      var g := groups[|groups| - 1];
      if IsDieGroup(g) then ScanItems(st, g, g.items, ctrls) else st
  }

  /** The index maps exactly the owned controllers to their owners among `groups`. */
  ghost predicate IndexesOwners(owner: map<string, string>, groups: seq<Group>, ctrls: set<string>) {
    forall c :: (c in owner <==> c in ctrls && Owner(groups, c).Some?)
                && (c in owner ==> owner[c] == Owner(groups, c).value)
  }

  /** The conflicts die group `d` adds when its items are scanned after the die groups of `prefix`. */
  function DieConflicts(prefix: seq<Group>, d: Group, items: seq<string>, ctrls: set<string>): set<Finding> {
    set c | c in items && c in ctrls && Owner(prefix, c).Some? && Owner(prefix, c).value != d.handle
      :: OwnershipConflict(d.handle, d.name, c, Owner(prefix, c).value)
  }

  /** Owners after one more group: an earlier owner stays; otherwise a die listing the controller becomes its owner. */
  lemma OwnerSnoc(prefix: seq<Group>, g: Group, c: string)
    ensures Owner(prefix + [g], c) ==
              if Owner(prefix, c).Some? then Owner(prefix, c)
              else if DieLists(g, c) then Some(g.handle) else None
  {
    assert (prefix + [g])[..|prefix|] == prefix;
  }

  /** One more item of die `d` adds the conflict it raises, if any. */
  lemma DieConflictsSnoc(prefix: seq<Group>, d: Group, earlier: seq<string>, c0: string, ctrls: set<string>)
    ensures DieConflicts(prefix, d, earlier + [c0], ctrls) ==
              DieConflicts(prefix, d, earlier, ctrls)
              + (if c0 in ctrls && Owner(prefix, c0).Some? && Owner(prefix, c0).value != d.handle
                 then {OwnershipConflict(d.handle, d.name, c0, Owner(prefix, c0).value)} else {})
  {
    assert forall c :: c in earlier + [c0] <==> c in earlier || c == c0;
  }

  /** While die `d` is scanned after `prefix`: owners from `prefix` kept, controllers first seen in `items` owned by `d`. */
  ghost predicate IndexesItems(owner: map<string, string>, prefix: seq<Group>, d: Group, items: seq<string>, ctrls: set<string>) {
    forall c :: (c in owner <==> c in ctrls && (Owner(prefix, c).Some? || c in items))
                && (c in owner ==> owner[c] == if Owner(prefix, c).Some? then Owner(prefix, c).value else d.handle)
  }

  /** One item step of the scan keeps the index and reports the item's conflict, if any. */
  lemma ScanItemStep(r: ScanState, prefix: seq<Group>, d: Group, earlier: seq<string>, c0: string, ctrls: set<string>)
    requires IndexesItems(r.owner, prefix, d, earlier, ctrls)
    ensures IndexesItems(ScanItem(r, d, c0, ctrls).owner, prefix, d, earlier + [c0], ctrls)
    ensures ScanItem(r, d, c0, ctrls).found ==
              r.found + (if c0 in ctrls && Owner(prefix, c0).Some? && Owner(prefix, c0).value != d.handle
                         then {OwnershipConflict(d.handle, d.name, c0, Owner(prefix, c0).value)} else {})
  {
    assert forall c :: c in earlier + [c0] <==> c in earlier || c == c0;
  }

  /** Scanning the items of die `d` after `prefix`: the index grows by the controllers first seen in `d`. */
  lemma {:induction false} ScanItemsEffect(st: ScanState, prefix: seq<Group>, d: Group, items: seq<string>, ctrls: set<string>)
    requires IndexesOwners(st.owner, prefix, ctrls)
    ensures IndexesItems(ScanItems(st, d, items, ctrls).owner, prefix, d, items, ctrls)
    ensures ScanItems(st, d, items, ctrls).found == st.found + DieConflicts(prefix, d, items, ctrls)
    decreases |items|
  {
    if items == [] {
      assert DieConflicts(prefix, d, items, ctrls) == {};
    } else {
      var n := |items| - 1;
      var earlier := items[..n];
      var c0 := items[n];
      assert items == earlier + [c0];
      ScanItemsEffect(st, prefix, d, earlier, ctrls);
      DieConflictsSnoc(prefix, d, earlier, c0, ctrls);
      ScanItemStep(ScanItems(st, d, earlier, ctrls), prefix, d, earlier, c0, ctrls);
    }
  }

  /** Adding one group adds exactly the conflicts its items raise against the groups before it. */
  lemma OwnershipConflictsSnoc(prefix: seq<Group>, g: Group, ctrls: set<string>)
    ensures OwnershipConflicts(prefix + [g], ctrls) ==
              OwnershipConflicts(prefix, ctrls) + (if IsDieGroup(g) then DieConflicts(prefix, g, g.items, ctrls) else {})
  {
    var groups := prefix + [g];
    var n := |prefix|;
    assert groups[..n] == prefix;
    forall i: nat | i < n ensures groups[..i] == prefix[..i] && groups[i] == prefix[i] { }
    var lhs := OwnershipConflicts(groups, ctrls);
    var rhs := OwnershipConflicts(prefix, ctrls) + (if IsDieGroup(g) then DieConflicts(prefix, g, g.items, ctrls) else {});
    forall m | m in lhs ensures m in rhs {
      var i: nat, c :| i < |groups| && c in groups[i].items && Conflicting(groups, ctrls, i, c)
        && m == OwnershipConflict(groups[i].handle, groups[i].name, c, Owner(groups[..i], c).value);
      if i < n {
        assert Conflicting(prefix, ctrls, i, c);
      }
    }
    forall m | m in rhs ensures m in lhs {
      if m in OwnershipConflicts(prefix, ctrls) {
        var i: nat, c :| i < |prefix| && c in prefix[i].items && Conflicting(prefix, ctrls, i, c)
          && m == OwnershipConflict(prefix[i].handle, prefix[i].name, c, Owner(prefix[..i], c).value);
        assert Conflicting(groups, ctrls, i, c);
      } else {
        var c :| c in g.items && c in ctrls && Owner(prefix, c).Some? && Owner(prefix, c).value != g.handle
          && m == OwnershipConflict(g.handle, g.name, c, Owner(prefix, c).value);
        assert Conflicting(groups, ctrls, n, c);
      }
    }
  }

  /** The scan indexes every controller's first owner and reports exactly the ownership conflicts. */
  lemma {:induction false} ScanGroupsEffect(groups: seq<Group>, ctrls: set<string>)
    ensures IndexesOwners(ScanGroups(groups, ctrls).owner, groups, ctrls)
    ensures ScanGroups(groups, ctrls).found == OwnershipConflicts(groups, ctrls)
    decreases |groups|
  {
    if groups != [] {
      var n := |groups| - 1;
      var prefix := groups[..n];
      var g := groups[n];
      assert groups == prefix + [g];
      ScanGroupsEffect(prefix, ctrls);
      OwnershipConflictsSnoc(prefix, g, ctrls);
      forall c ensures Owner(groups, c) ==
          if Owner(prefix, c).Some? then Owner(prefix, c) else if DieLists(g, c) then Some(g.handle) else None
      {
        OwnerSnoc(prefix, g, c);
      }
      if IsDieGroup(g) {
        ScanItemsEffect(ScanGroups(prefix, ctrls), prefix, g, g.items, ctrls);
      }
    } else {
      assert OwnershipConflicts(groups, ctrls) == {};
    }
  }

  /** The single-ownership check: scans the die groups in order, keeping the first owner of each controller. */
  method CheckOwnership(groups: seq<Group>) returns (found: set<Finding>)
    ensures found == OwnershipConflicts(groups, ControllerHandles(groups))
  {
    var ctrls := ControllerHandles(groups);
    var owner: map<string, string> := map[];
    found := {};
    var i := 0;
    while i < |groups|
      invariant 0 <= i <= |groups|
      invariant ScanState(owner, found) == ScanGroups(groups[..i], ctrls)
    {
      var g := groups[i];
      assert groups[..i + 1][..i] == groups[..i];
      if IsDieGroup(g) {
        var j := 0;
        while j < |g.items|
          invariant 0 <= j <= |g.items|
          invariant ScanState(owner, found) == ScanItems(ScanGroups(groups[..i], ctrls), g, g.items[..j], ctrls)
        {
          var c := g.items[j];
          assert g.items[..j + 1][..j] == g.items[..j];
          if c in ctrls {
            if c !in owner {
              owner := owner[c := g.handle];
            } else if owner[c] != g.handle {
              found := found + {OwnershipConflict(g.handle, g.name, c, owner[c])};
            }
          }
          j := j + 1;
        }
        assert g.items[..|g.items|] == g.items;
      }
      i := i + 1;
    }
    assert groups[..|groups|] == groups;
    ScanGroupsEffect(groups, ctrls);
  }

  /** `validate()`: all four checks over the whole group sequence. */
  method Validate(groups: seq<Group>, records: seq<Record>) returns (messages: set<string>)
    ensures messages == Messages(groups, records)
  {
    var conflicts := CheckOwnership(groups);
    var findings := UnlistedControllers(groups) + DiesWithoutController(groups) + MixedControllers(groups, records) + conflicts;
    messages := set f | f in findings :: Message(f);
  }

  /** Two dies with different handles listing one controller always raise a conflict. */
  lemma DoubleListingConflicts(groups: seq<Group>, ctrls: set<string>, c: string, i: nat, j: nat)
    requires i < j < |groups| && c in ctrls && DieLists(groups[i], c) && DieLists(groups[j], c)
    requires groups[i].handle != groups[j].handle
    ensures OwnershipConflicts(groups, ctrls) != {}
  {
    assert groups[..j][i] == groups[i];
    var k := FirstListingDie(groups[..j], c).value;
    assert groups[..j][k] == groups[k];
    if groups[k].handle != groups[j].handle {
      assert Conflicting(groups, ctrls, j, c);
      assert OwnershipConflict(groups[j].handle, groups[j].name, c, Owner(groups[..j], c).value) in OwnershipConflicts(groups, ctrls);
    } else {
      assert groups[..i][k] == groups[k];
      var k' := FirstListingDie(groups[..i], c).value;
      assert groups[..i][k'] == groups[k'];
      assert groups[..j][k'] == groups[k'];
      assert k' == k;
      assert Conflicting(groups, ctrls, i, c);
      assert OwnershipConflict(groups[i].handle, groups[i].name, c, Owner(groups[..i], c).value) in OwnershipConflicts(groups, ctrls);
    }
  }

  /**
   * A die that lists a controller whose earliest listing die, among the groups
   * before it, has another handle is reported against that earliest die.
   */
  lemma ConflictReported(groups: seq<Group>, ctrls: set<string>, j: nat, c: string)
    requires j < |groups| && c in ctrls && DieLists(groups[j], c)
    requires FirstListingDie(groups[..j], c).Some?
    requires groups[FirstListingDie(groups[..j], c).value].handle != groups[j].handle
    ensures OwnershipConflict(groups[j].handle, groups[j].name, c, groups[FirstListingDie(groups[..j], c).value].handle)
              in OwnershipConflicts(groups, ctrls)
  {
    var k := FirstListingDie(groups[..j], c).value;
    assert groups[..j][k] == groups[k];
    assert Conflicting(groups, ctrls, j, c);
  }

  /**
   * Every conflict names a die that lists a controller and, as owner, the
   * earliest die before it that lists the same controller, whose handle differs.
   */
  lemma ConflictCause(groups: seq<Group>, ctrls: set<string>, f: Finding)
    requires f in OwnershipConflicts(groups, ctrls)
    ensures exists j: nat, c :: j < |groups| && c in ctrls && DieLists(groups[j], c)
              && FirstListingDie(groups[..j], c).Some?
              && groups[FirstListingDie(groups[..j], c).value].handle != groups[j].handle
              && f == OwnershipConflict(groups[j].handle, groups[j].name, c, groups[FirstListingDie(groups[..j], c).value].handle)
  {
    var j: nat, c :| j < |groups| && c in groups[j].items && Conflicting(groups, ctrls, j, c)
      && f == OwnershipConflict(groups[j].handle, groups[j].name, c, Owner(groups[..j], c).value);
    var k := FirstListingDie(groups[..j], c).value;
    assert groups[..j][k] == groups[k];
  }

  /** Every conflict comes from two dies with different handles listing one controller. */
  lemma ConflictHasTwoListings(groups: seq<Group>, ctrls: set<string>, f: Finding)
    requires f in OwnershipConflicts(groups, ctrls)
    ensures exists c, i, j :: 0 <= i < j < |groups| && c in ctrls && DieLists(groups[i], c) && DieLists(groups[j], c)
              && groups[i].handle != groups[j].handle
  {
    var j: nat, c :| j < |groups| && c in groups[j].items && Conflicting(groups, ctrls, j, c)
      && f == OwnershipConflict(groups[j].handle, groups[j].name, c, Owner(groups[..j], c).value);
    var k := FirstListingDie(groups[..j], c).value;
    assert groups[..j][k] == groups[k];
  }

  /** The scan reports nothing exactly when no controller is listed by two dies with different handles. */
  lemma NoConflictIffSingleOwnership(groups: seq<Group>, ctrls: set<string>)
    ensures OwnershipConflicts(groups, ctrls) == {} <==> SingleOwnership(groups, ctrls)
  {
    if !SingleOwnership(groups, ctrls) {
      var c, i, j :| 0 <= i < j < |groups| && c in ctrls && DieLists(groups[i], c) && DieLists(groups[j], c)
        && groups[i].handle != groups[j].handle;
      DoubleListingConflicts(groups, ctrls, c, i, j);
    }
    if OwnershipConflicts(groups, ctrls) != {} {
      var f :| f in OwnershipConflicts(groups, ctrls);
      ConflictHasTwoListings(groups, ctrls, f);
    }
  }

  /** The membership check reports nothing exactly when every controller is listed by some die. */
  lemma NoUnlistedIff(groups: seq<Group>)
    ensures UnlistedControllers(groups) == {} <==>
              forall g :: g in groups && IsControllerGroup(g) ==> ListedByDie(groups, g.handle)
  {
    if exists g :: g in groups && IsControllerGroup(g) && !ListedByDie(groups, g.handle) {
      var g :| g in groups && IsControllerGroup(g) && !ListedByDie(groups, g.handle);
      assert UnlistedController(g.handle, g.name) in UnlistedControllers(groups);
    }
  }

  /** The non-emptiness check reports nothing exactly when every die lists some controller. */
  lemma NoEmptyDieIff(groups: seq<Group>)
    ensures DiesWithoutController(groups) == {} <==>
              forall d :: d in groups && IsDieGroup(d) ==> exists h :: h in d.items && h in ControllerHandles(groups)
  {
    if exists d :: d in groups && IsDieGroup(d) && forall h :: h in d.items ==> h !in ControllerHandles(groups) {
      var d :| d in groups && IsDieGroup(d) && forall h :: h in d.items ==> h !in ControllerHandles(groups);
      assert DieWithoutController(d.handle, d.name) in DiesWithoutController(groups);
    }
  }

  /** The homogeneity check reports nothing exactly when every controller item is a Group Associations handle. */
  lemma NoMixedIff(groups: seq<Group>, records: seq<Record>)
    ensures MixedControllers(groups, records) == {} <==>
              forall g, h :: g in groups && IsControllerGroup(g) && h in g.items ==> IsGroupAssociationsHandle(records, h)
  {
    if exists g, h :: g in groups && IsControllerGroup(g) && h in g.items && !IsGroupAssociationsHandle(records, h) {
      var g, h :| g in groups && IsControllerGroup(g) && h in g.items && !IsGroupAssociationsHandle(records, h);
      assert MixedItems(g.handle, g.name) in MixedControllers(groups, records);
    }
  }

  /** A run reports nothing exactly when the topology is consistent. */
  lemma NoFindingsIffConsistent(groups: seq<Group>, records: seq<Record>)
    ensures Messages(groups, records) == {} <==> TopologyConsistent(groups, records)
  {
    if Findings(groups, records) != {} {
      var f :| f in Findings(groups, records);
      assert Message(f) in Messages(groups, records);
    }
    var unlisted, empty, mixed := UnlistedControllers(groups), DiesWithoutController(groups), MixedControllers(groups, records);
    var conflicts := OwnershipConflicts(groups, ControllerHandles(groups));
    assert Findings(groups, records) == unlisted + empty + mixed + conflicts;
    assert Findings(groups, records) == {} <==> unlisted == {} && empty == {} && mixed == {} && conflicts == {} by {
      if Findings(groups, records) == {} {
        assert unlisted <= Findings(groups, records) && empty <= Findings(groups, records);
        assert mixed <= Findings(groups, records) && conflicts <= Findings(groups, records);
      }
    }
    NoUnlistedIff(groups);
    NoEmptyDieIff(groups);
    NoMixedIff(groups, records);
    NoConflictIffSingleOwnership(groups, ControllerHandles(groups));
  }

  /** Findings of different kinds never render to the same message: each template opens differently. */
  lemma MessageDeterminesKind(f: Finding, g: Finding)
    requires Message(f) == Message(g)
    ensures f.UnlistedController? <==> g.UnlistedController?
    ensures f.DieWithoutController? <==> g.DieWithoutController?
    ensures f.MixedItems? <==> g.MixedItems?
    ensures f.OwnershipConflict? <==> g.OwnershipConflict?
  {
    MessageOpens(f);
    MessageOpens(g);
  }

  /** The first character of each template: 'M', 'T', 'S' or 'I'. */
  lemma MessageOpens(f: Finding)
    ensures |Message(f)| > 0
    ensures Message(f)[0] == match f
      case UnlistedController(_, _) => 'M'
      case DieWithoutController(_, _) => 'T'
      case MixedItems(_, _) => 'S'
      case OwnershipConflict(_, _, _, _) => 'I'
  {
    match f
    case UnlistedController(_, _) =>
      OpensWith("Memory Controller Handle ", Message(f));
    case DieWithoutController(_, _) =>
      OpensWith("There is no memory controller handle", Message(f));
    case MixedItems(_, _) =>
      OpensWith("Some items in Handle ", Message(f));
    case OwnershipConflict(_, _, _, _) =>
      OpensWith("In items of Die Handle ", Message(f));
  }

  lemma OpensWith(lead: string, msg: string)
    requires lead != [] && lead <= msg
    ensures |msg| > 0 && msg[0] == lead[0]
  {
  }

  // A non-compliant topology shape: controllers c0, c1 and c2 listed by no
  // die, c1 also referencing a record `dev` that is not a Group Associations
  // record, die d0 listing nothing, and controller c3 claimed first by die d1
  // and then by die d2.

  function Topology(c0: Group, c1: Group, c2: Group, c3: Group, d0: Group, d1: Group, d2: Group): seq<Group> {
    [c0, c1, c2, c3, d0, d1, d2]
  }

  /** The shape's hypotheses: names, item lists and the few handle inequalities the findings depend on. */
  predicate TopologyShape(c0: Group, c1: Group, c2: Group, c3: Group, d0: Group, d1: Group, d2: Group, dev: string) {
    && IsControllerGroup(c0) && IsControllerGroup(c1) && IsControllerGroup(c2) && IsControllerGroup(c3)
    && IsDieGroup(d0) && IsDieGroup(d1) && IsDieGroup(d2)
    && c0.items == [] && c1.items == [dev] && c2.items == [] && c3.items == []
    && d0.items == [] && d1.items == [c3.handle] && d2.items == [c3.handle]
    && c0.handle != c3.handle && c1.handle != c3.handle && c2.handle != c3.handle
    && d1.handle != d2.handle
  }

  lemma ShapeKinds(c0: Group, c1: Group, c2: Group, c3: Group, d0: Group, d1: Group, d2: Group, dev: string)
    requires TopologyShape(c0, c1, c2, c3, d0, d1, d2, dev)
    ensures var gs := Topology(c0, c1, c2, c3, d0, d1, d2);
      && (forall i :: 0 <= i < 4 ==> IsControllerGroup(gs[i]) && !IsDieGroup(gs[i]))
      && (forall i :: 4 <= i < 7 ==> IsDieGroup(gs[i]) && !IsControllerGroup(gs[i]))
      && c3.handle in ControllerHandles(gs)
  {
    var gs := Topology(c0, c1, c2, c3, d0, d1, d2);
    forall i | 0 <= i < 7 ensures !(IsDieGroup(gs[i]) && IsControllerGroup(gs[i])) {
      DieIsNotController(gs[i]);
    }
    assert gs[3] in gs;
  }

  /** In a topology of the shape, the dies list nothing but c3. */
  lemma ShapeListsOnlyC3(c0: Group, c1: Group, c2: Group, c3: Group, d0: Group, d1: Group, d2: Group, dev: string, h: string)
    requires TopologyShape(c0, c1, c2, c3, d0, d1, d2, dev)
    ensures ListedByDie(Topology(c0, c1, c2, c3, d0, d1, d2), h) <==> h == c3.handle
  {
    var gs := Topology(c0, c1, c2, c3, d0, d1, d2);
    ShapeKinds(c0, c1, c2, c3, d0, d1, d2, dev);
    if h == c3.handle {
      assert gs[5] in gs && DieLists(gs[5], c3.handle);
    } else {
      forall d | d in gs ensures !DieLists(d, h) {
        var i :| 0 <= i < |gs| && gs[i] == d;
      }
    }
  }

  /** Only c0, c1 and c2 go unlisted. */
  lemma ShapeUnlistedOnly(c0: Group, c1: Group, c2: Group, c3: Group, d0: Group, d1: Group, d2: Group, dev: string, i: nat)
    requires TopologyShape(c0, c1, c2, c3, d0, d1, d2, dev)
    requires i < 7 && IsControllerGroup(Topology(c0, c1, c2, c3, d0, d1, d2)[i]) && !ListedByDie(Topology(c0, c1, c2, c3, d0, d1, d2), Topology(c0, c1, c2, c3, d0, d1, d2)[i].handle)
    ensures i < 3
  {
    ShapeListsOnlyC3(c0, c1, c2, c3, d0, d1, d2, dev, c3.handle);
    ShapeKinds(c0, c1, c2, c3, d0, d1, d2, dev);
  }

  /** c0, c1 and c2 all go unlisted. */
  lemma ShapeUnlistedHas(c0: Group, c1: Group, c2: Group, c3: Group, d0: Group, d1: Group, d2: Group, dev: string)
    requires TopologyShape(c0, c1, c2, c3, d0, d1, d2, dev)
    ensures var gs := Topology(c0, c1, c2, c3, d0, d1, d2);
      && UnlistedController(c0.handle, c0.name) in UnlistedControllers(gs)
      && UnlistedController(c1.handle, c1.name) in UnlistedControllers(gs)
      && UnlistedController(c2.handle, c2.name) in UnlistedControllers(gs)
  {
    var gs := Topology(c0, c1, c2, c3, d0, d1, d2);
    ShapeKinds(c0, c1, c2, c3, d0, d1, d2, dev);
    ShapeListsOnlyC3(c0, c1, c2, c3, d0, d1, d2, dev, c0.handle);
    ShapeListsOnlyC3(c0, c1, c2, c3, d0, d1, d2, dev, c1.handle);
    ShapeListsOnlyC3(c0, c1, c2, c3, d0, d1, d2, dev, c2.handle);
    assert gs[0] in gs && gs[1] in gs && gs[2] in gs;
  }

  /** Nothing but c0, c1 and c2 is reported unlisted. */
  lemma ShapeUnlistedWithin(c0: Group, c1: Group, c2: Group, c3: Group, d0: Group, d1: Group, d2: Group, dev: string)
    requires TopologyShape(c0, c1, c2, c3, d0, d1, d2, dev)
    ensures forall f :: f in UnlistedControllers(Topology(c0, c1, c2, c3, d0, d1, d2)) ==>
              f == UnlistedController(c0.handle, c0.name) || f == UnlistedController(c1.handle, c1.name)
              || f == UnlistedController(c2.handle, c2.name)
  {
    var gs := Topology(c0, c1, c2, c3, d0, d1, d2);
    forall f | f in UnlistedControllers(gs)
      ensures f == UnlistedController(c0.handle, c0.name) || f == UnlistedController(c1.handle, c1.name)
              || f == UnlistedController(c2.handle, c2.name)
    {
      var g :| g in gs && IsControllerGroup(g) && !ListedByDie(gs, g.handle) && f == UnlistedController(g.handle, g.name);
      var i :| 0 <= i < |gs| && gs[i] == g;
      ShapeUnlistedOnly(c0, c1, c2, c3, d0, d1, d2, dev, i);
      assert g == c0 || g == c1 || g == c2 by {
        assert i == 0 || i == 1 || i == 2;
      }
    }
  }

  lemma ShapeUnlisted(c0: Group, c1: Group, c2: Group, c3: Group, d0: Group, d1: Group, d2: Group, dev: string)
    requires TopologyShape(c0, c1, c2, c3, d0, d1, d2, dev)
    ensures UnlistedControllers(Topology(c0, c1, c2, c3, d0, d1, d2)) ==
              {UnlistedController(c0.handle, c0.name), UnlistedController(c1.handle, c1.name), UnlistedController(c2.handle, c2.name)}
  {
    var gs := Topology(c0, c1, c2, c3, d0, d1, d2);
    ShapeUnlistedWithin(c0, c1, c2, c3, d0, d1, d2, dev);
    ShapeUnlistedHas(c0, c1, c2, c3, d0, d1, d2, dev);
    Triple(UnlistedControllers(gs), UnlistedController(c0.handle, c0.name), UnlistedController(c1.handle, c1.name),
      UnlistedController(c2.handle, c2.name));
  }

  /** Only d0 lists no controller. */
  lemma ShapeEmptyDieOnly(c0: Group, c1: Group, c2: Group, c3: Group, d0: Group, d1: Group, d2: Group, dev: string, i: nat)
    requires TopologyShape(c0, c1, c2, c3, d0, d1, d2, dev)
    requires i < 7 && IsDieGroup(Topology(c0, c1, c2, c3, d0, d1, d2)[i]) && forall h :: h in Topology(c0, c1, c2, c3, d0, d1, d2)[i].items ==> h !in ControllerHandles(Topology(c0, c1, c2, c3, d0, d1, d2))
    ensures i == 4
  {
    ShapeKinds(c0, c1, c2, c3, d0, d1, d2, dev);
    assert c3.handle in d1.items && c3.handle in d2.items;
  }

  lemma ShapeEmptyDieMember(c0: Group, c1: Group, c2: Group, c3: Group, d0: Group, d1: Group, d2: Group, dev: string, f: Finding)
    requires TopologyShape(c0, c1, c2, c3, d0, d1, d2, dev)
    requires f in DiesWithoutController(Topology(c0, c1, c2, c3, d0, d1, d2))
    ensures f == DieWithoutController(d0.handle, d0.name)
  {
    var gs := Topology(c0, c1, c2, c3, d0, d1, d2);
    var d :| d in gs && IsDieGroup(d) && (forall h :: h in d.items ==> h !in ControllerHandles(gs))
      && f == DieWithoutController(d.handle, d.name);
    var i :| 0 <= i < |gs| && gs[i] == d;
    ShapeEmptyDieOnly(c0, c1, c2, c3, d0, d1, d2, dev, i);
  }
  lemma ShapeEmptyDie(c0: Group, c1: Group, c2: Group, c3: Group, d0: Group, d1: Group, d2: Group, dev: string)
    requires TopologyShape(c0, c1, c2, c3, d0, d1, d2, dev)
    ensures DiesWithoutController(Topology(c0, c1, c2, c3, d0, d1, d2)) == {DieWithoutController(d0.handle, d0.name)}
  {
    var gs := Topology(c0, c1, c2, c3, d0, d1, d2);
    forall f | f in DiesWithoutController(gs) ensures f == DieWithoutController(d0.handle, d0.name) {
      ShapeEmptyDieMember(c0, c1, c2, c3, d0, d1, d2, dev, f);
    }
    ShapeKinds(c0, c1, c2, c3, d0, d1, d2, dev);
    assert gs[4] in gs;
    Singleton(DiesWithoutController(gs), DieWithoutController(d0.handle, d0.name));
  }

  /** Only c1 references a record that is not a Group Associations record. */
  lemma ShapeMixedOnly(c0: Group, c1: Group, c2: Group, c3: Group, d0: Group, d1: Group, d2: Group, dev: string, records: seq<Record>, i: nat)
    requires TopologyShape(c0, c1, c2, c3, d0, d1, d2, dev)
    requires i < 7 && IsControllerGroup(Topology(c0, c1, c2, c3, d0, d1, d2)[i])
    requires exists h :: h in Topology(c0, c1, c2, c3, d0, d1, d2)[i].items && !IsGroupAssociationsHandle(records, h)
    ensures i == 1
  {
    ShapeKinds(c0, c1, c2, c3, d0, d1, d2, dev);
  }

  lemma ShapeMixed(c0: Group, c1: Group, c2: Group, c3: Group, d0: Group, d1: Group, d2: Group, dev: string, records: seq<Record>)
    requires TopologyShape(c0, c1, c2, c3, d0, d1, d2, dev)
    requires !IsGroupAssociationsHandle(records, dev)
    ensures MixedControllers(Topology(c0, c1, c2, c3, d0, d1, d2), records) == {MixedItems(c1.handle, c1.name)}
  {
    var gs := Topology(c0, c1, c2, c3, d0, d1, d2);
    forall f | f in MixedControllers(gs, records) ensures f == MixedItems(c1.handle, c1.name) {
      var g :| g in gs && IsControllerGroup(g) && (exists h :: h in g.items && !IsGroupAssociationsHandle(records, h))
        && f == MixedItems(g.handle, g.name);
      var i :| 0 <= i < |gs| && gs[i] == g;
      ShapeMixedOnly(c0, c1, c2, c3, d0, d1, d2, dev, records, i);
    }
    assert MixedItems(c1.handle, c1.name) in MixedControllers(gs, records) by {
      ShapeKinds(c0, c1, c2, c3, d0, d1, d2, dev);
      assert gs[1] in gs && dev in gs[1].items;
    }
    Singleton(MixedControllers(gs, records), MixedItems(c1.handle, c1.name));
  }

  /** In a topology of the shape, c3 has no owner before d1 and is owned by d1 once d1 is scanned. */
  lemma ShapeOwnerOfC3(c0: Group, c1: Group, c2: Group, c3: Group, d0: Group, d1: Group, d2: Group, dev: string)
    requires TopologyShape(c0, c1, c2, c3, d0, d1, d2, dev)
    ensures var gs := Topology(c0, c1, c2, c3, d0, d1, d2);
      Owner(gs[..5], c3.handle) == None && Owner(gs[..6], c3.handle) == Some(d1.handle)
  {
    var gs := Topology(c0, c1, c2, c3, d0, d1, d2);
    ShapeKinds(c0, c1, c2, c3, d0, d1, d2, dev);
    forall j | 0 <= j < 5 ensures !DieLists(gs[..5][j], c3.handle) && !DieLists(gs[..6][j], c3.handle) {
      assert gs[..5][j] == gs[j] && gs[..6][j] == gs[j];
    }
    assert gs[..6][5] == gs[5];
  }

  /** Only d2's claim on c3 conflicts. */
  lemma ShapeConflictOnly(c0: Group, c1: Group, c2: Group, c3: Group, d0: Group, d1: Group, d2: Group, dev: string, i: nat, c: string)
    requires TopologyShape(c0, c1, c2, c3, d0, d1, d2, dev)
    requires i < 7 && c in Topology(c0, c1, c2, c3, d0, d1, d2)[i].items && Conflicting(Topology(c0, c1, c2, c3, d0, d1, d2), ControllerHandles(Topology(c0, c1, c2, c3, d0, d1, d2)), i, c)
    ensures i == 6 && c == c3.handle
  {
    ShapeKinds(c0, c1, c2, c3, d0, d1, d2, dev);
    ShapeOwnerOfC3(c0, c1, c2, c3, d0, d1, d2, dev);
  }

  lemma ShapeConflict(c0: Group, c1: Group, c2: Group, c3: Group, d0: Group, d1: Group, d2: Group, dev: string)
    requires TopologyShape(c0, c1, c2, c3, d0, d1, d2, dev)
    ensures var gs := Topology(c0, c1, c2, c3, d0, d1, d2);
      OwnershipConflicts(gs, ControllerHandles(gs)) == {OwnershipConflict(d2.handle, d2.name, c3.handle, d1.handle)}
  {
    var gs := Topology(c0, c1, c2, c3, d0, d1, d2);
    var ctrls := ControllerHandles(gs);
    ShapeOwnerOfC3(c0, c1, c2, c3, d0, d1, d2, dev);
    forall f | f in OwnershipConflicts(gs, ctrls) ensures f == OwnershipConflict(d2.handle, d2.name, c3.handle, d1.handle) {
      var i: nat, c :| i < |gs| && c in gs[i].items && Conflicting(gs, ctrls, i, c)
        && f == OwnershipConflict(gs[i].handle, gs[i].name, c, Owner(gs[..i], c).value);
      ShapeConflictOnly(c0, c1, c2, c3, d0, d1, d2, dev, i, c);
    }
    ShapeKinds(c0, c1, c2, c3, d0, d1, d2, dev);
    assert Conflicting(gs, ctrls, 6, c3.handle);
    Singleton(OwnershipConflicts(gs, ctrls), OwnershipConflict(d2.handle, d2.name, c3.handle, d1.handle));
  }

  /** A set holding `x` and nothing else is `{x}`. */
  lemma Singleton(fs: set<Finding>, x: Finding)
    requires x in fs && forall y :: y in fs ==> y == x
    ensures fs == {x}
  {
  }

  /** A set holding `a`, `b` and `c` and nothing else is `{a, b, c}`. */
  lemma Triple(fs: set<Finding>, a: Finding, b: Finding, c: Finding)
    requires a in fs && b in fs && c in fs && forall y :: y in fs ==> y == a || y == b || y == c
    ensures fs == {a, b, c}
  {
  }

  /** Pools four known finding sets. */
  lemma PoolFindings(unlisted: set<Finding>, empty: set<Finding>, mixed: set<Finding>, conflicts: set<Finding>,
                     u0: Finding, u1: Finding, u2: Finding, e0: Finding, m0: Finding, o0: Finding)
    requires unlisted == {u0, u1, u2} && empty == {e0} && mixed == {m0} && conflicts == {o0}
    ensures unlisted + empty + mixed + conflicts == {u0, u1, u2, e0, m0, o0}
  {
  }

  /** A topology of this shape yields exactly the listed findings, one or more from each check. */
  lemma ShapeFindings(c0: Group, c1: Group, c2: Group, c3: Group, d0: Group, d1: Group, d2: Group, dev: string, records: seq<Record>)
    requires TopologyShape(c0, c1, c2, c3, d0, d1, d2, dev)
    requires !IsGroupAssociationsHandle(records, dev)
    ensures Findings(Topology(c0, c1, c2, c3, d0, d1, d2), records) == {
      UnlistedController(c0.handle, c0.name), UnlistedController(c1.handle, c1.name), UnlistedController(c2.handle, c2.name),
      DieWithoutController(d0.handle, d0.name),
      MixedItems(c1.handle, c1.name),
      OwnershipConflict(d2.handle, d2.name, c3.handle, d1.handle)
    }
  {
    var gs := Topology(c0, c1, c2, c3, d0, d1, d2);
    ShapeUnlisted(c0, c1, c2, c3, d0, d1, d2, dev);
    ShapeEmptyDie(c0, c1, c2, c3, d0, d1, d2, dev);
    ShapeMixed(c0, c1, c2, c3, d0, d1, d2, dev, records);
    ShapeConflict(c0, c1, c2, c3, d0, d1, d2, dev);
    PoolFindings(UnlistedControllers(gs), DiesWithoutController(gs), MixedControllers(gs, records),
      OwnershipConflicts(gs, ControllerHandles(gs)),
      UnlistedController(c0.handle, c0.name), UnlistedController(c1.handle, c1.name), UnlistedController(c2.handle, c2.name),
      DieWithoutController(d0.handle, d0.name), MixedItems(c1.handle, c1.name),
      OwnershipConflict(d2.handle, d2.name, c3.handle, d1.handle));
  }

  /** `Messages` is the rendering of `Findings`, finding by finding. */
  lemma MessagesRendered(groups: seq<Group>, records: seq<Record>)
    ensures Messages(groups, records) == set x | x in Findings(groups, records) :: Message(x)
  {
  }

  /** Six pairwise different findings make a set of six. */
  lemma SixDistinct(a: Finding, b: Finding, c: Finding, d: Finding, e: Finding, f: Finding)
    requires a != b && a != c && a != d && a != e && a != f
    requires b != c && b != d && b != e && b != f
    requires c != d && c != e && c != f
    requires d != e && d != f && e != f
    ensures |{a, b, c, d, e, f}| == 6
  {
    assert {a, b, c, d, e, f} == {a, b, c, d, e} + {f};
    assert {a, b, c, d, e} == {a, b, c, d} + {e};
    assert {a, b, c, d} == {a, b, c} + {d};
    assert {a, b, c} == {a, b} + {c};
  }

  /** When the three unlisted controllers have different handles, the shape yields six findings. */
  lemma ShapeFindingsCount(c0: Group, c1: Group, c2: Group, c3: Group, d0: Group, d1: Group, d2: Group, dev: string, records: seq<Record>)
    requires TopologyShape(c0, c1, c2, c3, d0, d1, d2, dev)
    requires !IsGroupAssociationsHandle(records, dev)
    requires c0.handle != c1.handle && c0.handle != c2.handle && c1.handle != c2.handle
    ensures |Findings(Topology(c0, c1, c2, c3, d0, d1, d2), records)| == 6
  {
    ShapeFindings(c0, c1, c2, c3, d0, d1, d2, dev, records);
    SixDistinct(UnlistedController(c0.handle, c0.name), UnlistedController(c1.handle, c1.name),
      UnlistedController(c2.handle, c2.name), DieWithoutController(d0.handle, d0.name), MixedItems(c1.handle, c1.name),
      OwnershipConflict(d2.handle, d2.name, c3.handle, d1.handle));
  }

  /** Renders a set of six findings. */
  lemma RenderSix(fs: set<Finding>, a: Finding, b: Finding, c: Finding, d: Finding, e: Finding, f: Finding)
    requires fs == {a, b, c, d, e, f}
    ensures (set x | x in fs :: Message(x)) == {Message(a), Message(b), Message(c), Message(d), Message(e), Message(f)}
  {
  }

  // The non-compliant sample: controllers 0x0297, 0x0299 and 0x0298 listed
  // by no die, 0x0298 also referencing a record that is not a group, die
  // 0x02C9 listing no controller, and controller 0x029B claimed by die 0x02CB
  // and then by die 0x02CC. The handles and names that appear in the expected
  // messages are the sample's own; the rest of the record set is reconstructed
  // to produce exactly those messages: the non-group record 0x1100 and its
  // type 17, the name "IMC2" of controller 0x029B and the name "die1" of die
  // 0x02CB.

  const SampleGroups: seq<Group> := Topology(
    Group("IMC0", "0x0297", []), Group("IMC1", "0x0298", ["0x1100"]), Group("IMC0", "0x0299", []),
    Group("IMC2", "0x029B", []),
    Group("die0", "0x02C9", []), Group("die1", "0x02CB", ["0x029B"]), Group("die0", "0x02CC", ["0x029B"]))

  const SampleRecords: seq<Record> := [
    Record("0x1100", 17, map[]),
    Record("0x0297", GroupAssociationsRecord, map[]), Record("0x0298", GroupAssociationsRecord, map[]),
    Record("0x0299", GroupAssociationsRecord, map[]), Record("0x029B", GroupAssociationsRecord, map[]),
    Record("0x02C9", GroupAssociationsRecord, map[]), Record("0x02CB", GroupAssociationsRecord, map[]),
    Record("0x02CC", GroupAssociationsRecord, map[])
  ]

  /** The sample yields exactly the six expected findings. */
  lemma SampleFindings()
    ensures Findings(SampleGroups, SampleRecords) == {
      UnlistedController("0x0297", "IMC0"), UnlistedController("0x0298", "IMC1"), UnlistedController("0x0299", "IMC0"),
      DieWithoutController("0x02C9", "die0"),
      MixedItems("0x0298", "IMC1"),
      OwnershipConflict("0x02CC", "die0", "0x029B", "0x02CB")
    }
  {
    var c0, c1, c2, c3 := Group("IMC0", "0x0297", []), Group("IMC1", "0x0298", ["0x1100"]), Group("IMC0", "0x0299", []),
      Group("IMC2", "0x029B", []);
    var d0, d1, d2 := Group("die0", "0x02C9", []), Group("die1", "0x02CB", ["0x029B"]), Group("die0", "0x02CC", ["0x029B"]);
    assert !IsGroupAssociationsHandle(SampleRecords, "0x1100");
    ShapeFindings(c0, c1, c2, c3, d0, d1, d2, "0x1100", SampleRecords);
  }

  /** The sample's six findings are six different findings. */
  lemma SampleFindingsCount()
    ensures |Findings(SampleGroups, SampleRecords)| == 6
  {
    var c0, c1, c2, c3 := Group("IMC0", "0x0297", []), Group("IMC1", "0x0298", ["0x1100"]), Group("IMC0", "0x0299", []),
      Group("IMC2", "0x029B", []);
    var d0, d1, d2 := Group("die0", "0x02C9", []), Group("die1", "0x02CB", ["0x029B"]), Group("die0", "0x02CC", ["0x029B"]);
    assert !IsGroupAssociationsHandle(SampleRecords, "0x1100");
    ShapeFindingsCount(c0, c1, c2, c3, d0, d1, d2, "0x1100", SampleRecords);
  }

  /** The sample's result keys are the six rendered findings, one from each check and three from membership. */
  lemma SampleMessages()
    ensures Messages(SampleGroups, SampleRecords) == {
      Message(UnlistedController("0x0297", "IMC0")), Message(UnlistedController("0x0298", "IMC1")),
      Message(UnlistedController("0x0299", "IMC0")),
      Message(DieWithoutController("0x02C9", "die0")),
      Message(MixedItems("0x0298", "IMC1")),
      Message(OwnershipConflict("0x02CC", "die0", "0x029B", "0x02CB"))
    }
  {
    SampleFindings();
    MessagesRendered(SampleGroups, SampleRecords);
    RenderSix(Findings(SampleGroups, SampleRecords),
      UnlistedController("0x0297", "IMC0"), UnlistedController("0x0298", "IMC1"), UnlistedController("0x0299", "IMC0"),
      DieWithoutController("0x02C9", "die0"), MixedItems("0x0298", "IMC1"),
      OwnershipConflict("0x02CC", "die0", "0x029B", "0x02CB"));
  }
}
