/** What acl_update.c does to an ACL, told entry by entry from the lists themselves. */
module AclEntries {
  import opened Basics
  import opened AclParse
  import opened AclUpdate

  /** The same user, the same group, or the same one of the other four tags. */
  ghost predicate Same(tag: Tag, qual: nat, tag': Tag, qual': nat) {
    tag == tag' && (tag == User || tag == Group ==> qual == qual')
  }

  ghost predicate HasEntry(entries: seq<Entry>, tag: Tag, qual: nat, perms: Perms) {
    exists j :: 0 <= j < |entries| && Same(entries[j].tag, entries[j].qual, tag, qual) && entries[j].perms == perms
  }

  ghost predicate Named(aces: seq<AccessControlEntry>, tag: Tag, qual: nat) {
    exists i :: 0 <= i < |aces| && Same(aces[i].tag, aces[i].qual, tag, qual)
  }

  /** No later element of the list is about the same one. */
  ghost predicate LastWord(aces: seq<AccessControlEntry>, i: nat) {
    && i < |aces|
    && forall j :: i < j < |aces| ==> !Same(aces[j].tag, aces[j].qual, aces[i].tag, aces[i].qual)
  }

  /** Some entry of a user, the owning group or a group grants it. */
  ghost predicate ClassGrants(entries: seq<Entry>, granted: Perms -> bool) {
    exists j ::
      && 0 <= j < |entries| && granted(entries[j].perms)
      && (entries[j].tag == User || entries[j].tag == GroupObj || entries[j].tag == Group)
  }

  lemma SameKey(tag: Tag, qual: nat, tag': Tag, qual': nat)
    ensures KeyOf(tag, qual) == KeyOf(tag', qual') <==> Same(tag, qual, tag', qual')
  {
  }

  lemma HasEntryIff(entries: seq<Entry>, tag: Tag, qual: nat, perms: Perms)
    requires UniqueKeys(entries)
    ensures HasEntry(entries, tag, qual, perms) <==>
      KeyOf(tag, qual) in Contents(entries) && Contents(entries)[KeyOf(tag, qual)] == perms
  {
    ContentsKeys(entries, KeyOf(tag, qual));
    hide Contents, UniqueKeys, KeyOf;
    forall j | 0 <= j < |entries|
      ensures EntryKey(entries[j]) == KeyOf(tag, qual) <==> Same(entries[j].tag, entries[j].qual, tag, qual)
      ensures EntryKey(entries[j]) in Contents(entries) && Contents(entries)[EntryKey(entries[j])] == entries[j].perms
    {
      SameKey(entries[j].tag, entries[j].qual, tag, qual);
      ContentsAt(entries, j);
    }
  }

  lemma NamedIff(aces: seq<AccessControlEntry>, tag: Tag, qual: nat)
    ensures Named(aces, tag, qual) <==> Mentions(aces, KeyOf(tag, qual))
  {
    hide KeyOf;
    forall i | 0 <= i < |aces|
      ensures AceKey(aces[i]) == KeyOf(tag, qual) <==> Same(aces[i].tag, aces[i].qual, tag, qual)
    {
      SameKey(aces[i].tag, aces[i].qual, tag, qual);
    }
  }

  /** The ACL after a modification of the one before. */
  ghost predicate After(before: seq<Entry>, aces: seq<AccessControlEntry>, op: Operation, recalc: bool,
                        after: seq<Entry>)
  {
    UniqueKeys(before) && UniqueKeys(after) && Contents(after) == AppliedAll(Contents(before), aces, op, recalc)
  }

  /** The last element of the list about someone has its permissions in the file, bit for bit. */
  lemma LastWordCounts(before: seq<Entry>, aces: seq<AccessControlEntry>, recalc: bool, after: seq<Entry>, i: nat)
    requires After(before, aces, ModifyEntries, recalc, after)
    requires LastWord(aces, i) && aces[i].perms.Some? && !(recalc && aces[i].tag == Mask)
    ensures HasEntry(after, aces[i].tag, aces[i].qual, aces[i].perms.value)
  {
    var k := AceKey(aces[i]);
    assert k == KeyOf(aces[i].tag, aces[i].qual);
    assert k == MASK_KEY ==> aces[i].tag == Mask;
    hide KeyOf, AppliedAll, UniqueKeys, Contents;
    forall j | i < j < |aces| ensures AceKey(aces[j]) != k {
      SameKey(aces[j].tag, aces[j].qual, aces[i].tag, aces[i].qual);
    }
    LastPermsIs(aces, k, i);
    assert LastFor(aces, k, i);
    ModifiedAt(Contents(before), aces, recalc, k);
    HasEntryIff(after, aces[i].tag, aces[i].qual, aces[i].perms.value);
  }

  /** Whoever the list does not name keeps the permissions it had, or stays without an entry. */
  lemma OthersKeep(before: seq<Entry>, aces: seq<AccessControlEntry>, recalc: bool, after: seq<Entry>, tag: Tag,
                   qual: nat, perms: Perms)
    requires After(before, aces, ModifyEntries, recalc, after)
    requires !Named(aces, tag, qual) && !(recalc && tag == Mask)
    ensures HasEntry(after, tag, qual, perms) <==> HasEntry(before, tag, qual, perms)
  {
    var k := KeyOf(tag, qual);
    assert k == MASK_KEY ==> tag == Mask;
    hide KeyOf, AppliedAll, UniqueKeys, Contents;
    NamedIff(aces, tag, qual);
    LastPermsIs(aces, k, 0);
    ModifiedAt(Contents(before), aces, recalc, k);
    HasEntryIff(after, tag, qual, perms);
    HasEntryIff(before, tag, qual, perms);
  }

  /** Removal keeps exactly the entries of those that the list does not name, as they were. */
  lemma RemovalKeeps(before: seq<Entry>, aces: seq<AccessControlEntry>, recalc: bool, after: seq<Entry>, tag: Tag,
                     qual: nat, perms: Perms)
    requires After(before, aces, RemoveEntries, recalc, after)
    requires !(recalc && tag == Mask)
    ensures HasEntry(after, tag, qual, perms) <==> HasEntry(before, tag, qual, perms) && !Named(aces, tag, qual)
  {
    var k := KeyOf(tag, qual);
    assert k == MASK_KEY ==> tag == Mask;
    hide KeyOf, AppliedAll, UniqueKeys, Contents;
    NamedIff(aces, tag, qual);
    RemovedAt(Contents(before), aces, recalc, k);
    HasEntryIff(after, tag, qual, perms);
    HasEntryIff(before, tag, qual, perms);
  }

  lemma ClassGrantsIff(entries: seq<Entry>)
    requires UniqueKeys(entries)
    ensures GroupClass(Contents(entries)) == Perms(ClassGrants(entries, (p: Perms) => p.read),
      ClassGrants(entries, (p: Perms) => p.write), ClassGrants(entries, (p: Perms) => p.execute))
  {
    hide UniqueKeys, Contents;
    var m := Contents(entries);
    forall j | 0 <= j < |entries|
      ensures EntryKey(entries[j]) in m && m[EntryKey(entries[j])] == entries[j].perms
      ensures EntryKey(entries[j]).tag == entries[j].tag
    {
      ContentsAt(entries, j);
    }
    forall k ensures k in m <==> Holds(entries, k) {
      ContentsKeys(entries, k);
    }
  }

  /** When the mask is recalculated, each of its permissions is there if and only if some entry of a user, the owning
      group or a group has it, in the ACL that is written. */
  lemma MaskIsUnion(before: seq<Entry>, aces: seq<AccessControlEntry>, op: Operation, after: seq<Entry>, perms: Perms)
    requires After(before, aces, op, true, after) && aces != []
    ensures HasEntry(after, Mask, 0, perms) <==>
      && perms.read == ClassGrants(after, (p: Perms) => p.read)
      && perms.write == ClassGrants(after, (p: Perms) => p.write)
      && perms.execute == ClassGrants(after, (p: Perms) => p.execute)
  {
    assert KeyOf(Mask, 0) == MASK_KEY;
    hide KeyOf, AppliedAll, UniqueKeys, Contents, ClassGrants, GroupClass;
    if op == ModifyEntries {
      ModifiedAt(Contents(before), aces, true, MASK_KEY);
    } else {
      RemovedAt(Contents(before), aces, true, MASK_KEY);
    }
    ClassGrantsIff(after);
    HasEntryIff(after, Mask, 0, perms);
  }

  ghost predicate HasTag(entries: seq<Entry>, tag: Tag) {
    exists j :: 0 <= j < |entries| && entries[j].tag == tag
  }

  /** An ACL is valid if and only if it has entries for the owner, the owning group and the others, and a mask if it has
      an entry for any user or group. */
  lemma ValidIff(entries: seq<Entry>)
    ensures Valid(Contents(entries)) <==>
      && HasTag(entries, UserObj) && HasTag(entries, GroupObj) && HasTag(entries, Other)
      && (HasTag(entries, User) || HasTag(entries, Group) ==> HasTag(entries, Mask))
  {
    forall tag | tag == UserObj || tag == GroupObj || tag == Other || tag == Mask
      ensures Key(tag, 0) in Contents(entries) <==> HasTag(entries, tag)
    {
      TagHeld(entries, tag);
    }
    NamedIs(entries);
    hide Contents, HasNamed, KeyOf;
    assert HasTag(entries, User) || HasTag(entries, Group) <==>
        exists j :: 0 <= j < |entries| && IsNamed(entries[j].tag);
  }

  /** Each ACL that the program writes is valid, and has the elements of the list so far applied. */
  lemma EachWritten(written: seq<seq<Entry>>, before: seq<Entry>, aces: seq<AccessControlEntry>, op: Operation,
                    recalc: bool, i: nat)
    requires UniqueKeys(before) && WroteEach(written, Contents(before), aces, op, recalc)
    requires i < |written|
    ensures i < |aces| && After(before, aces[..i + 1], op, recalc, written[i])
    ensures HasTag(written[i], UserObj) && HasTag(written[i], GroupObj) && HasTag(written[i], Other)
    ensures HasTag(written[i], User) || HasTag(written[i], Group) ==> HasTag(written[i], Mask)
  {
    hide Contents, UniqueKeys, AppliedAll, Valid, HasTag;
    assert Wrote(written[i], Contents(before), aces, i, op, recalc);
    ValidIff(written[i]);
  }

  lemma TagHeld(entries: seq<Entry>, tag: Tag)
    requires tag == UserObj || tag == GroupObj || tag == Other || tag == Mask
    ensures Key(tag, 0) in Contents(entries) <==> HasTag(entries, tag)
  {
    ContentsKeys(entries, Key(tag, 0));
    hide Contents;
    forall j | 0 <= j < |entries| ensures EntryKey(entries[j]) == Key(tag, 0) <==> entries[j].tag == tag {
    }
  }
}
