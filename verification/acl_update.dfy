/** acl_update.c: modification and removal of ACL entries, with recalculation of the mask. */
module AclUpdate {
  import opened Basics
  import opened AclParse

  /** An entry of an ACL; the qualifier means something in User and Group entries only. */
  datatype Entry = Entry(tag: Tag, qual: nat, perms: Perms)

  datatype Operation = ModifyEntries | RemoveEntries

  datatype Key = Key(tag: Tag, qual: nat)

  type AclMap = map<Key, Perms>

  const MASK_KEY: Key := Key(Mask, 0)

  predicate IsNamed(tag: Tag) {
    tag == User || tag == Group
  }

  predicate IsRequired(tag: Tag) {
    tag == UserObj || tag == GroupObj || tag == Other
  }

  predicate InGroupClass(tag: Tag) {
    tag == User || tag == GroupObj || tag == Group
  }

  function KeyOf(tag: Tag, qual: nat): Key {
    Key(tag, if IsNamed(tag) then qual else 0)
  }

  function EntryKey(e: Entry): Key {
    KeyOf(e.tag, e.qual)
  }

  function AceKey(ace: AccessControlEntry): Key {
    KeyOf(ace.tag, ace.qual)
  }

  function AcePerms(ace: AccessControlEntry): Perms {
    match ace.perms case Some(p) => p case None => Perms(false, false, false)
  }

  // ---------------------------------------------------------------- ACLs as maps

  ghost predicate HasNamed(m: AclMap) {
    exists k :: k in m && IsNamed(k.tag)
  }

  /** acl_valid() for an ACL without duplicates: section 23.4 of IEEE 1003.1e draft 17. */
  ghost predicate Valid(m: AclMap) {
    && Key(UserObj, 0) in m && Key(GroupObj, 0) in m && Key(Other, 0) in m
    && (HasNamed(m) ==> MASK_KEY in m)
  }

  /** The union of the permissions that the group class grants. */
  ghost function GroupClass(m: AclMap): Perms {
    Perms(exists k :: k in m && InGroupClass(k.tag) && m[k].read,
          exists k :: k in m && InGroupClass(k.tag) && m[k].write,
          exists k :: k in m && InGroupClass(k.tag) && m[k].execute)
  }

  /** acl_calc_mask(): the mask entry is set, or added if there is none. */
  ghost function Recalculated(m: AclMap): AclMap {
    m[MASK_KEY := GroupClass(m)]
  }

  function Changed(m: AclMap, ace: AccessControlEntry, op: Operation): AclMap {
    if op == RemoveEntries then m - {AceKey(ace)} else m[AceKey(ace) := AcePerms(ace)]
  }

  ghost function Applied(m: AclMap, ace: AccessControlEntry, op: Operation, recalc: bool): AclMap {
    if recalc then Recalculated(Changed(m, ace, op)) else Changed(m, ace, op)
  }

  ghost function AppliedAll(m: AclMap, aces: seq<AccessControlEntry>, op: Operation, recalc: bool): AclMap {
    if aces == [] then m
    else Applied(AppliedAll(m, aces[..|aces| - 1], op, recalc), aces[|aces| - 1], op, recalc)
  }

  /** The file's ACL when the program has gone through the entries, or has stopped at one that made the ACL invalid. */
  datatype Outcome = Outcome(file: AclMap, completed: bool)

  ghost function Update(m: AclMap, aces: seq<AccessControlEntry>, op: Operation, recalc: bool): Outcome {
    if aces == [] then Outcome(m, true)
    else
      var before := Update(m, aces[..|aces| - 1], op, recalc);
      var next := Applied(before.file, aces[|aces| - 1], op, recalc);
      if before.completed && Valid(next) then Outcome(next, true) else Outcome(before.file, false)
  }

  lemma {:induction false} StopsThere(m: AclMap, aces: seq<AccessControlEntry>, k: nat, op: Operation, recalc: bool)
    requires k <= |aces| && !Update(m, aces[..k], op, recalc).completed
    ensures Update(m, aces, op, recalc) == Update(m, aces[..k], op, recalc)
    decreases |aces|
  {
    if k == |aces| {
      assert aces[..k] == aces;
    } else {
      assert aces[..|aces| - 1][..k] == aces[..k];
      StopsThere(m, aces[..|aces| - 1], k, op, recalc);
    }
  }

  ghost predicate ValidAfter(m: AclMap, aces: seq<AccessControlEntry>, k: nat, op: Operation, recalc: bool)
    requires k <= |aces|
  {
    Valid(AppliedAll(m, aces[..k], op, recalc))
  }

  /** Every intermediate ACL is valid. */
  ghost predicate AllValid(m: AclMap, aces: seq<AccessControlEntry>, op: Operation, recalc: bool) {
    forall k :: 0 < k <= |aces| ==> ValidAfter(m, aces, k, op, recalc)
  }

  lemma AllValidLast(m: AclMap, aces: seq<AccessControlEntry>, op: Operation, recalc: bool)
    requires aces != []
    ensures AllValid(m, aces, op, recalc) <==>
      AllValid(m, aces[..|aces| - 1], op, recalc) && Valid(AppliedAll(m, aces, op, recalc))
  {
    var init := aces[..|aces| - 1];
    ValidAfterAll(m, aces, op, recalc);
    forall k: nat | k <= |init| ensures ValidAfter(m, init, k, op, recalc) == ValidAfter(m, aces, k, op, recalc) {
      ValidAfterSome(m, aces, k, op, recalc);
    }
    hide ValidAfter, Valid, AppliedAll;
  }

  lemma ValidAfterAll(m: AclMap, aces: seq<AccessControlEntry>, op: Operation, recalc: bool)
    ensures ValidAfter(m, aces, |aces|, op, recalc) == Valid(AppliedAll(m, aces, op, recalc))
  {
    hide Valid, AppliedAll;
    assert aces[..|aces|] == aces;
  }

  lemma ValidAfterSome(m: AclMap, aces: seq<AccessControlEntry>, k: nat, op: Operation, recalc: bool)
    requires k < |aces|
    ensures ValidAfter(m, aces[..|aces| - 1], k, op, recalc) == ValidAfter(m, aces, k, op, recalc)
  {
    hide Valid, AppliedAll;
    assert aces[..|aces| - 1][..k] == aces[..k];
  }

  /** The program completes if and only if every intermediate ACL is valid, and then all entries were applied.
      However it ends, it leaves the file with an ACL that is valid, or the one it had. */
  lemma {:induction false} CompletesIff(m: AclMap, aces: seq<AccessControlEntry>, op: Operation, recalc: bool)
    ensures var r := Update(m, aces, op, recalc);
      && (r.completed <==> AllValid(m, aces, op, recalc))
      && (r.completed ==> r.file == AppliedAll(m, aces, op, recalc))
      && (Valid(r.file) || r.file == m)
    decreases |aces|
  {
    if aces != [] {
      CompletesIff(m, aces[..|aces| - 1], op, recalc);
      AllValidLast(m, aces, op, recalc);
      hide Valid, Applied, AllValid;
    }
  }

  // ---------------------------------------------------------------- what all the entries together do

  /** The permissions in the last entry for the key. */
  function LastPerms(aces: seq<AccessControlEntry>, k: Key): Option<Perms> {
    if aces == [] then None
    else if AceKey(aces[|aces| - 1]) == k then Some(AcePerms(aces[|aces| - 1]))
    else LastPerms(aces[..|aces| - 1], k)
  }

  ghost predicate LastFor(aces: seq<AccessControlEntry>, k: Key, i: nat) {
    && i < |aces| && AceKey(aces[i]) == k
    && forall j :: i < j < |aces| ==> AceKey(aces[j]) != k
  }

  ghost predicate Mentions(aces: seq<AccessControlEntry>, k: Key) {
    exists i :: 0 <= i < |aces| && AceKey(aces[i]) == k
  }

  lemma {:induction false} LastPermsIs(aces: seq<AccessControlEntry>, k: Key, i: nat)
    ensures LastPerms(aces, k).Some? <==> Mentions(aces, k)
    ensures LastFor(aces, k, i) ==> LastPerms(aces, k) == Some(AcePerms(aces[i]))
    decreases |aces|
  {
    if aces != [] {
      var init := aces[..|aces| - 1];
      LastPermsIs(init, k, i);
      MentionsLast(aces, k);
      hide Mentions;
      if LastFor(aces, k, i) && i < |init| {
        assert AceKey(aces[|init|]) != k;
        assert forall j :: i < j < |init| ==> AceKey(init[j]) == AceKey(aces[j]);
        assert LastFor(init, k, i);
      }
    }
  }

  /** Modification is a last-writer-wins update: each key named has the permissions of the last entry for it, and every
      other entry is as it was. With recalculation this leaves out the mask, which is the union of the group class. */
  lemma {:induction false} ModifiedAt(m: AclMap, aces: seq<AccessControlEntry>, recalc: bool, k: Key)
    ensures var after, last := AppliedAll(m, aces, ModifyEntries, recalc), LastPerms(aces, k);
      if recalc && k == MASK_KEY
      then aces != [] ==> k in after && after[k] == GroupClass(after)
      else && (k in after <==> last.Some? || k in m)
           && (last.Some? ==> after[k] == last.value)
           && (last.None? && k in m ==> after[k] == m[k])
    decreases |aces|
  {
    if aces != [] {
      ModifiedAt(m, aces[..|aces| - 1], recalc, k);
      var before := AppliedAll(m, aces[..|aces| - 1], ModifyEntries, recalc);
      MaskNotInClass(Changed(before, aces[|aces| - 1], ModifyEntries));
      hide GroupClass;
    }
  }

  /** The mask is not itself of the group class. */
  lemma MaskNotInClass(m: AclMap)
    ensures GroupClass(Recalculated(m)) == GroupClass(m)
  {
    var r := Recalculated(m);
    assert forall k :: k in m && InGroupClass(k.tag) ==> k in r && r[k] == m[k];
    assert forall k :: k in r && InGroupClass(k.tag) ==> k in m;
  }

  /** Removal deletes exactly the keys named. */
  lemma {:induction false} RemovedAt(m: AclMap, aces: seq<AccessControlEntry>, recalc: bool, k: Key)
    ensures var after := AppliedAll(m, aces, RemoveEntries, recalc);
      if recalc && k == MASK_KEY
      then aces != [] ==> k in after && after[k] == GroupClass(after)
      else && (k in after <==> k in m && !Mentions(aces, k))
           && (k in after ==> after[k] == m[k])
    decreases |aces|
  {
    if aces != [] {
      var n := |aces|;
      RemovedAt(m, aces[..n - 1], recalc, k);
      MaskNotInClass(Changed(AppliedAll(m, aces[..n - 1], RemoveEntries, recalc), aces[n - 1], RemoveEntries));
      MentionsLast(aces, k);
      hide GroupClass, Mentions;
    }
  }

  lemma MentionsLast(aces: seq<AccessControlEntry>, k: Key)
    requires aces != []
    ensures Mentions(aces, k) <==> AceKey(aces[|aces| - 1]) == k || Mentions(aces[..|aces| - 1], k)
  {
    var init := aces[..|aces| - 1];
    if Mentions(init, k) {
      var i :| 0 <= i < |init| && AceKey(init[i]) == k;
      assert AceKey(aces[i]) == k;
    }
    if AceKey(aces[|aces| - 1]) == k {
      assert 0 <= |aces| - 1 < |aces|;
    }
    if i :| 0 <= i < |aces| && AceKey(aces[i]) == k {
      assert i < |aces| - 1 ==> AceKey(init[i]) == k;
    }
  }

  // ---------------------------------------------------------------- which runs complete

  /** With the mask recalculated, modifying a valid ACL always completes. */
  lemma {:induction false} ModifyAlwaysCompletes(m: AclMap, aces: seq<AccessControlEntry>)
    requires Valid(m)
    ensures Update(m, aces, ModifyEntries, true).completed && Valid(Update(m, aces, ModifyEntries, true).file)
    decreases |aces|
  {
    if aces != [] {
      ModifyAlwaysCompletes(m, aces[..|aces| - 1]);
      hide GroupClass;
    }
  }

  /** Each entry for a named user or group comes after one for the mask. */
  ghost predicate MaskFirst(aces: seq<AccessControlEntry>) {
    forall i :: 0 <= i < |aces| && IsNamed(aces[i].tag) ==> Mentions(aces[..i], MASK_KEY)
  }

  lemma MaskFirstLast(aces: seq<AccessControlEntry>)
    requires aces != []
    ensures MaskFirst(aces) <==>
      && MaskFirst(aces[..|aces| - 1])
      && (IsNamed(aces[|aces| - 1].tag) ==> Mentions(aces[..|aces| - 1], MASK_KEY))
  {
    hide Mentions, IsNamed;
    var init := aces[..|aces| - 1];
    assert forall i :: 0 <= i < |init| ==> init[..i] == aces[..i] && init[i] == aces[i];
  }

  /** With -n, modifying a valid ACL completes if and only if the ACL has a mask, or the list gives one before it names
      any user or group. */
  lemma {:induction false} ModifyWithoutMaskIff(m: AclMap, aces: seq<AccessControlEntry>)
    requires Valid(m)
    ensures var r := Update(m, aces, ModifyEntries, false);
      && (r.completed <==> MASK_KEY in m || MaskFirst(aces))
      && (r.completed ==> Valid(r.file) && (MASK_KEY in r.file <==> MASK_KEY in m || Mentions(aces, MASK_KEY)))
    decreases |aces|
  {
    if aces != [] {
      var init, ace := aces[..|aces| - 1], aces[|aces| - 1];
      ModifyWithoutMaskIff(m, init);
      MaskFirstLast(aces);
      MentionsLast(aces, MASK_KEY);
      var before := Update(m, init, ModifyEntries, false);
      if before.completed {
        ModifyValid(before.file, ace);
      }
      hide MaskFirst, Mentions, Valid, HasNamed;
    }
  }

  lemma ModifyValid(m: AclMap, ace: AccessControlEntry)
    requires Valid(m)
    ensures var m' := Applied(m, ace, ModifyEntries, false);
      && (Valid(m') <==> MASK_KEY in m || !IsNamed(ace.tag))
      && (MASK_KEY in m' <==> MASK_KEY in m || AceKey(ace) == MASK_KEY)
  {
    var m' := Applied(m, ace, ModifyEntries, false);
    assert AceKey(ace) in m';
    assert IsNamed(ace.tag) ==> HasNamed(m');
    assert HasNamed(m') ==> HasNamed(m) || IsNamed(ace.tag);
  }

  ghost predicate NamesRequired(aces: seq<AccessControlEntry>) {
    exists i :: 0 <= i < |aces| && IsRequired(aces[i].tag)
  }

  lemma NamesRequiredLast(aces: seq<AccessControlEntry>)
    requires aces != []
    ensures NamesRequired(aces) <==> IsRequired(aces[|aces| - 1].tag) || NamesRequired(aces[..|aces| - 1])
  {
    var init := aces[..|aces| - 1];
    if NamesRequired(init) {
      var i :| 0 <= i < |init| && IsRequired(init[i].tag);
      assert IsRequired(aces[i].tag);
    }
    if i :| 0 <= i < |aces| && IsRequired(aces[i].tag) {
      assert i < |aces| - 1 ==> IsRequired(init[i].tag);
    }
  }

  /** With the mask recalculated, removal from a valid ACL completes if and only if it does not name the owner, the
      owning group or others. */
  lemma {:induction false} RemoveCompletesIff(m: AclMap, aces: seq<AccessControlEntry>)
    requires Valid(m)
    ensures Update(m, aces, RemoveEntries, true).completed <==> !NamesRequired(aces)
    ensures Valid(Update(m, aces, RemoveEntries, true).file)
    decreases |aces|
  {
    if aces != [] {
      var init, ace := aces[..|aces| - 1], aces[|aces| - 1];
      RemoveCompletesIff(m, init);
      NamesRequiredLast(aces);
      hide GroupClass, NamesRequired;
      var before := Update(m, init, RemoveEntries, true).file;
      assert Valid(Applied(before, ace, RemoveEntries, true)) <==> !IsRequired(ace.tag);
    }
  }

  /** Every named user and group of the ACL is in the list. */
  ghost predicate NoNamedLeft(m: AclMap, aces: seq<AccessControlEntry>) {
    forall k :: k in m && IsNamed(k.tag) ==> Mentions(aces, k)
  }

  /** The mask is removed only after every named user and group. */
  ghost predicate MaskLast(m: AclMap, aces: seq<AccessControlEntry>) {
    forall i :: 0 <= i < |aces| && aces[i].tag == Mask ==> NoNamedLeft(m, aces[..i])
  }

  lemma MaskLastLast(m: AclMap, aces: seq<AccessControlEntry>)
    requires aces != []
    ensures MaskLast(m, aces) <==>
      MaskLast(m, aces[..|aces| - 1]) && (aces[|aces| - 1].tag == Mask ==> NoNamedLeft(m, aces[..|aces| - 1]))
  {
    hide NoNamedLeft;
    var init := aces[..|aces| - 1];
    assert forall i :: 0 <= i < |init| ==> init[..i] == aces[..i] && init[i] == aces[i];
  }

  lemma NamedAfterRemoval(m: AclMap, aces: seq<AccessControlEntry>)
    ensures HasNamed(AppliedAll(m, aces, RemoveEntries, false)) <==> !NoNamedLeft(m, aces)
  {
    var after := AppliedAll(m, aces, RemoveEntries, false);
    hide AppliedAll, Mentions;
    forall k ensures k in after <==> k in m && !Mentions(aces, k) {
      RemovedAt(m, aces, false, k);
    }
  }

  /** With -n, removal from a valid ACL completes if and only if, besides that, it removes the mask only once no named
      user or group is left. */
  lemma {:induction false} RemoveWithoutMaskIff(m: AclMap, aces: seq<AccessControlEntry>)
    requires Valid(m)
    ensures Update(m, aces, RemoveEntries, false).completed <==> !NamesRequired(aces) && MaskLast(m, aces)
    ensures Valid(Update(m, aces, RemoveEntries, false).file)
    decreases |aces|
  {
    if aces != [] {
      var init, ace := aces[..|aces| - 1], aces[|aces| - 1];
      RemoveWithoutMaskIff(m, init);
      NamesRequiredLast(aces);
      MaskLastLast(m, aces);
      NamedAfterRemoval(m, init);
      CompletesIff(m, init, RemoveEntries, false);
      var before := Update(m, init, RemoveEntries, false);
      RemoveValid(before.file, ace);
      hide NamesRequired, MaskLast, NoNamedLeft, Valid, HasNamed, Applied, AppliedAll;
    }
  }

  lemma RemoveValid(m: AclMap, ace: AccessControlEntry)
    requires Valid(m)
    ensures Valid(Applied(m, ace, RemoveEntries, false)) <==>
      !IsRequired(ace.tag) && (ace.tag == Mask ==> !HasNamed(m))
  {
    var m' := Applied(m, ace, RemoveEntries, false);
    assert !IsNamed(ace.tag) && HasNamed(m) ==> HasNamed(m') by {
      if k :| k in m && IsNamed(k.tag) {
        assert !IsNamed(ace.tag) ==> k in m';
      }
    }
  }

  // ---------------------------------------------------------------- ACLs as lists of entries

  ghost predicate UniqueKeys(entries: seq<Entry>) {
    forall i, j :: 0 <= i < j < |entries| ==> EntryKey(entries[i]) != EntryKey(entries[j])
  }

  function Contents(entries: seq<Entry>): AclMap {
    if entries == [] then map[]
    else Contents(entries[..|entries| - 1])[EntryKey(entries[|entries| - 1]) := entries[|entries| - 1].perms]
  }

  ghost predicate Holds(entries: seq<Entry>, k: Key) {
    exists i :: 0 <= i < |entries| && EntryKey(entries[i]) == k
  }

  lemma {:induction false} ContentsKeys(entries: seq<Entry>, k: Key)
    ensures k in Contents(entries) <==> Holds(entries, k)
    decreases |entries|
  {
    if entries != [] {
      var init := entries[..|entries| - 1];
      ContentsKeys(init, k);
      if Holds(init, k) {
        var i :| 0 <= i < |init| && EntryKey(init[i]) == k;
        assert EntryKey(entries[i]) == k;
      }
      if i :| 0 <= i < |entries| && EntryKey(entries[i]) == k {
        assert i < |init| ==> EntryKey(init[i]) == k;
      }
      assert EntryKey(entries[|init|]) == k ==> Holds(entries, k);
    }
  }

  lemma {:induction false} ContentsAt(entries: seq<Entry>, i: nat)
    requires UniqueKeys(entries) && i < |entries|
    ensures EntryKey(entries[i]) in Contents(entries) && Contents(entries)[EntryKey(entries[i])] == entries[i].perms
    decreases |entries|
  {
    if i < |entries| - 1 {
      ContentsAt(entries[..|entries| - 1], i);
    }
  }

  /** Two lists that hold the same entries mean the same. */
  lemma ContentsSame(entries: seq<Entry>, m: AclMap)
    requires UniqueKeys(entries)
    requires forall k :: k in m <==> Holds(entries, k)
    requires forall i :: 0 <= i < |entries| && EntryKey(entries[i]) in m ==> m[EntryKey(entries[i])] == entries[i].perms
    ensures Contents(entries) == m
  {
    hide Contents, UniqueKeys;
    forall k ensures k in Contents(entries) <==> k in m {
      ContentsKeys(entries, k);
    }
    forall k | k in m ensures Contents(entries)[k] == m[k] {
      var i :| 0 <= i < |entries| && EntryKey(entries[i]) == k;
      ContentsAt(entries, i);
    }
  }

  lemma SetMeans(entries: seq<Entry>, i: nat, p: Perms)
    requires UniqueKeys(entries) && i < |entries|
    ensures UniqueKeys(entries[i := entries[i].(perms := p)])
    ensures Contents(entries[i := entries[i].(perms := p)]) == Contents(entries)[EntryKey(entries[i]) := p]
  {
    var after, m := entries[i := entries[i].(perms := p)], Contents(entries)[EntryKey(entries[i]) := p];
    assert forall j :: 0 <= j < |entries| ==> EntryKey(after[j]) == EntryKey(entries[j]);
    hide Contents;
    forall k ensures k in m <==> Holds(after, k) {
      ContentsKeys(entries, k);
      assert Holds(after, k) <==> Holds(entries, k);
    }
    forall j | 0 <= j < |after| ensures m[EntryKey(after[j])] == after[j].perms {
      ContentsAt(entries, j);
    }
    ContentsSame(after, m);
  }

  lemma AddMeans(entries: seq<Entry>, e: Entry)
    requires UniqueKeys(entries) && !Holds(entries, EntryKey(e))
    ensures UniqueKeys(entries + [e])
    ensures Contents(entries + [e]) == Contents(entries)[EntryKey(e) := e.perms]
  {
    assert (entries + [e])[..|entries|] == entries;
  }

  lemma DeleteHolds(entries: seq<Entry>, i: nat, k: Key)
    requires UniqueKeys(entries) && i < |entries|
    ensures Holds(entries[..i] + entries[i + 1..], k) <==> Holds(entries, k) && k != EntryKey(entries[i])
  {
    var after := entries[..i] + entries[i + 1..];
    assert forall j :: 0 <= j < |after| ==> after[j] == entries[if j < i then j else j + 1];
    if j :| 0 <= j < |entries| && j != i && EntryKey(entries[j]) == k {
      assert after[if j < i then j else j - 1] == entries[j];
    }
  }

  lemma DeleteUnique(entries: seq<Entry>, i: nat)
    requires UniqueKeys(entries) && i < |entries|
    ensures UniqueKeys(entries[..i] + entries[i + 1..])
  {
    var after := entries[..i] + entries[i + 1..];
    assert forall j :: 0 <= j < |after| ==> after[j] == entries[if j < i then j else j + 1];
  }

  lemma DeleteMeans(entries: seq<Entry>, i: nat)
    requires UniqueKeys(entries) && i < |entries|
    ensures UniqueKeys(entries[..i] + entries[i + 1..])
    ensures Contents(entries[..i] + entries[i + 1..]) == Contents(entries) - {EntryKey(entries[i])}
  {
    hide Contents, UniqueKeys, Holds;
    var after, m := entries[..i] + entries[i + 1..], Contents(entries) - {EntryKey(entries[i])};
    DeleteUnique(entries, i);
    forall k ensures k in m <==> Holds(after, k) {
      DeleteHolds(entries, i, k);
      ContentsKeys(entries, k);
    }
    forall j | 0 <= j < |after| && EntryKey(after[j]) in m ensures m[EntryKey(after[j])] == after[j].perms {
      ContentsAt(entries, if j < i then j else j + 1);
    }
    ContentsSame(after, m);
  }

  function Union(a: Perms, b: Perms): Perms {
    Perms(a.read || b.read, a.write || b.write, a.execute || b.execute)
  }

  /** The permissions of the entries of the group class, one after the other. */
  function ClassUnion(entries: seq<Entry>): Perms {
    if entries == [] then Perms(false, false, false)
    else
      var before, e := ClassUnion(entries[..|entries| - 1]), entries[|entries| - 1];
      if InGroupClass(e.tag) then Union(before, e.perms) else before
  }

  lemma {:induction false} ClassUnionIs(entries: seq<Entry>)
    requires UniqueKeys(entries)
    ensures ClassUnion(entries) == GroupClass(Contents(entries))
    decreases |entries|
  {
    if entries != [] {
      var init, e := entries[..|entries| - 1], entries[|entries| - 1];
      ClassUnionIs(init);
      ContentsKeys(init, EntryKey(e));
      ClassGrows(Contents(init), EntryKey(e), e.perms);
      hide GroupClass, ClassUnion;
      ClassUnionStep(entries);
    }
  }

  lemma ClassUnionStep(entries: seq<Entry>)
    requires entries != []
    ensures var before, e := ClassUnion(entries[..|entries| - 1]), entries[|entries| - 1];
      ClassUnion(entries) == if InGroupClass(e.tag) then Union(before, e.perms) else before
  {
  }

  lemma ClassGrows(m: AclMap, k: Key, p: Perms)
    requires k !in m
    ensures GroupClass(m[k := p]) == if InGroupClass(k.tag) then Union(GroupClass(m), p) else GroupClass(m)
  {
    var m' := m[k := p];
    assert k in m' && m'[k] == p;
    assert forall j :: j in m ==> j in m' && m'[j] == m[j];
    assert forall j :: j in m' ==> j == k || j in m;
  }

  /** An ACL object, as the library has it. */
  class Acl {
    var entries: seq<Entry>

    constructor (entries: seq<Entry>)
      ensures this.entries == entries
    {
      this.entries := entries;
    }

    /** findEntry(): |entries| stands for NULL. */
    method FindEntry(tag: Tag, qual: nat) returns (i: nat)
      ensures i <= |entries|
      ensures i < |entries| ==> EntryKey(entries[i]) == KeyOf(tag, qual)
      ensures i == |entries| <==> !Holds(entries, KeyOf(tag, qual))
    {
      i := 0;
      while i < |entries|
        invariant i <= |entries| && forall j :: 0 <= j < i ==> EntryKey(entries[j]) != KeyOf(tag, qual)
      {
        if tag == entries[i].tag {
          if tag == User || tag == Group {
            if qual == entries[i].qual {
              return i;
            }
          } else {
            return i;
          }
        }
        i := i + 1;
      }
    }

    /** setPerms() */
    method SetPerms(i: nat, perms: Perms)
      requires UniqueKeys(entries) && i < |entries|
      modifies this
      ensures UniqueKeys(entries)
      ensures Contents(entries) == old(Contents(entries))[old(EntryKey(entries[i])) := perms]
    {
      SetMeans(entries, i, perms);
      entries := entries[i := entries[i].(perms := perms)];
    }

    method CreateEntry(tag: Tag, qual: nat, perms: Perms)
      requires UniqueKeys(entries) && !Holds(entries, KeyOf(tag, qual))
      modifies this
      ensures UniqueKeys(entries) && Contents(entries) == old(Contents(entries))[KeyOf(tag, qual) := perms]
      ensures |entries| == old(|entries|) + 1 && EntryKey(entries[old(|entries|)]) == KeyOf(tag, qual)
    {
      AddMeans(entries, Entry(tag, qual, perms));
      entries := entries + [Entry(tag, qual, perms)];
    }

    method DeleteEntry(i: nat)
      requires UniqueKeys(entries) && i < |entries|
      modifies this
      ensures UniqueKeys(entries) && Contents(entries) == old(Contents(entries)) - {old(EntryKey(entries[i]))}
    {
      DeleteMeans(entries, i);
      entries := entries[..i] + entries[i + 1..];
    }

    /** acl_calc_mask() */
    method CalcMask()
      requires UniqueKeys(entries)
      modifies this
      ensures UniqueKeys(entries) && Contents(entries) == Recalculated(old(Contents(entries)))
    {
      hide GroupClass, Contents, UniqueKeys, Holds;
      var perms := Perms(false, false, false);
      var i := 0;
      assert entries[..0] == [];
      while i < |entries|
        invariant i <= |entries| && perms == ClassUnion(entries[..i])
      {
        assert entries[..i + 1][..i] == entries[..i];
        if InGroupClass(entries[i].tag) {
          perms := Union(perms, entries[i].perms);
        }
        i := i + 1;
      }
      assert entries[..i] == entries;
      hide ClassUnion;
      ClassUnionIs(entries);
      var mask := FindEntry(Mask, 0);
      if mask == |entries| {
        CreateEntry(Mask, 0, perms);
      } else {
        SetPerms(mask, perms);
      }
    }

    /** acl_valid() */
    method IsValid() returns (valid: bool)
      requires UniqueKeys(entries)
      ensures valid <==> Valid(Contents(entries))
    {
      var owner := FindEntry(UserObj, 0);
      var group := FindEntry(GroupObj, 0);
      var other := FindEntry(Other, 0);
      var mask := FindEntry(Mask, 0);
      var named := false;
      var i := 0;
      while i < |entries|
        invariant i <= |entries| && (named <==> exists j :: 0 <= j < i && IsNamed(entries[j].tag))
      {
        named := named || IsNamed(entries[i].tag);
        i := i + 1;
      }
      NamedIs(entries);
      ContentsKeys(entries, Key(UserObj, 0));
      ContentsKeys(entries, Key(GroupObj, 0));
      ContentsKeys(entries, Key(Other, 0));
      ContentsKeys(entries, MASK_KEY);
      hide Contents, Holds, HasNamed, UniqueKeys;
      valid := owner < |entries| && group < |entries| && other < |entries| && (!named || mask < |entries|);
    }
  }

  lemma NamedIs(entries: seq<Entry>)
    ensures HasNamed(Contents(entries)) <==> exists j :: 0 <= j < |entries| && IsNamed(entries[j].tag)
  {
    hide Contents;
    if k :| k in Contents(entries) && IsNamed(k.tag) {
      ContentsKeys(entries, k);
      var i :| 0 <= i < |entries| && EntryKey(entries[i]) == k;
      assert IsNamed(entries[i].tag);
    }
    if j :| 0 <= j < |entries| && IsNamed(entries[j].tag) {
      ContentsKeys(entries, EntryKey(entries[j]));
      assert IsNamed(EntryKey(entries[j]).tag);
    }
  }

  /** A file with its access ACL, or its default ACL, and all the ACLs that were ever written to it. */
  class File {
    var acl: seq<Entry>
    var written: seq<seq<Entry>>
  }

  /** Entry i of the list was written, with all before it applied. */
  ghost predicate Wrote(written: seq<Entry>, m: AclMap, aces: seq<AccessControlEntry>, i: nat, op: Operation,
      recalc: bool)
    requires i < |aces|
  {
    && UniqueKeys(written) && Contents(written) == AppliedAll(m, aces[..i + 1], op, recalc)
    && Valid(Contents(written))
  }

  /** One ACL was written for each of the first entries of the list, in order. */
  ghost predicate WroteEach(written: seq<seq<Entry>>, m: AclMap, aces: seq<AccessControlEntry>, op: Operation,
      recalc: bool)
  {
    |written| <= |aces| && forall i :: 0 <= i < |written| ==> Wrote(written[i], m, aces, i, op, recalc)
  }

  /** updateACL(). The file is written anew for each entry, with a valid ACL; false stands for the program's exit
      when the ACL is not valid. */
  method UpdateACL(file: File, aclist: seq<AccessControlEntry>, operation: Operation, recalcMask: bool)
    returns (completed: bool)
    requires UniqueKeys(file.acl)
    modifies file
    ensures UniqueKeys(file.acl)
    ensures Outcome(Contents(file.acl), completed) == Update(old(Contents(file.acl)), aclist, operation, recalcMask)
    ensures old(file.written) <= file.written
    ensures var written := file.written[|old(file.written)|..];
      && WroteEach(written, old(Contents(file.acl)), aclist, operation, recalcMask)
      && (completed <==> |written| == |aclist|)
      && file.acl == if written == [] then old(file.acl) else written[|written| - 1]
  {
    hide Contents, UniqueKeys, Recalculated, Valid, Holds, AppliedAll, Wrote, WroteEach;
    ghost var m, before, written := Contents(file.acl), file.written, [];
    var acl := new Acl(file.acl);
    var en := 0;
    assert aclist[..0] == [];
    NoneWritten(m, aclist, operation, recalcMask);
    while en < |aclist|
      invariant en <= |aclist| && UniqueKeys(acl.entries) && file.acl == acl.entries && fresh(acl)
      invariant Update(m, aclist[..en], operation, recalcMask) == Outcome(Contents(file.acl), true)
      invariant file.written == before + written && |written| == en
      invariant file.acl == if written == [] then old(file.acl) else written[en - 1]
      invariant WroteEach(written, m, aclist, operation, recalcMask)
    {
      var ace := aclist[en];
      UpdateOneEntry(acl, ace, operation);
      if recalcMask {
        acl.CalcMask();
      }
      assert aclist[..en + 1][..en] == aclist[..en];
      assert Contents(acl.entries) == Applied(Contents(file.acl), ace, operation, recalcMask);
      var valid := acl.IsValid();
      if !valid {
        StopsThere(m, aclist, en + 1, operation, recalcMask);
        return false;
      }
      file.acl, file.written := acl.entries, file.written + [acl.entries];
      NowWritten(written, file.acl, m, aclist, operation, recalcMask);
      written := written + [acl.entries];
      en := en + 1;
    }
    assert aclist[..en] == aclist;
    completed := true;
  }

  lemma NoneWritten(m: AclMap, aces: seq<AccessControlEntry>, op: Operation, recalc: bool)
    ensures WroteEach([], m, aces, op, recalc)
  {
  }

  lemma NowWritten(written: seq<seq<Entry>>, acl: seq<Entry>, m: AclMap, aces: seq<AccessControlEntry>, op: Operation,
      recalc: bool)
    requires WroteEach(written, m, aces, op, recalc) && |written| < |aces| && UniqueKeys(acl) && Valid(Contents(acl))
    requires Update(m, aces[..|written| + 1], op, recalc) == Outcome(Contents(acl), true)
    ensures WroteEach(written + [acl], m, aces, op, recalc)
  {
    hide Update, Valid, Contents, AppliedAll, UniqueKeys;
    CompletesIff(m, aces[..|written| + 1], op, recalc);
    assert Wrote(acl, m, aces, |written|, op, recalc);
    hide Wrote;
  }

  /** The part of the loop that changes the entry. */
  method UpdateOneEntry(acl: Acl, ace: AccessControlEntry, operation: Operation)
    requires UniqueKeys(acl.entries)
    modifies acl
    ensures UniqueKeys(acl.entries) && Contents(acl.entries) == Changed(old(Contents(acl.entries)), ace, operation)
  {
    hide Contents, UniqueKeys, Holds;
    ghost var m := Contents(acl.entries);
    var entry := acl.FindEntry(ace.tag, ace.qual);
    if operation == RemoveEntries {
      if entry < |acl.entries| {
        acl.DeleteEntry(entry);
      } else {
        ContentsKeys(acl.entries, AceKey(ace));
        assert m - {AceKey(ace)} == m;
      }
    } else {
      if entry == |acl.entries| {
        acl.CreateEntry(ace.tag, ace.qual, Perms(false, false, false));
      }
      acl.SetPerms(entry, AcePerms(ace));
    }
  }
}
