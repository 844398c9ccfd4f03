/** setenv.c and exercise_3.c: setenv() and unsetenv() on the environment list, a NULL-terminated array of strings. */
module Environment {
  import opened Basics

  // ---------------------------------------------------------------- what an environment means

  /** The part of an entry before its first '='. */
  function NameOf(entry: string): Option<string> {
    if entry == "" then None
    else if entry[0] == '=' then Some("")
    else match NameOf(entry[1..])
         case None => None
         case Some(rest) => Some([entry[0]] + rest)
  }

  predicate Names(entry: string, name: string) {
    NameOf(entry) == Some(name)
  }

  function Entry(name: string, value: string): string {
    name + "=" + value
  }

  /** The comparison in the loops of both programs decides whether an entry has the name. */
  lemma {:induction false} ComparisonFindsName(entry: string, name: string)
    requires '=' !in name
    ensures Names(entry, name) <==> |entry| > |name| && entry[..|name|] == name && entry[|name|] == '='
    decreases |entry|
  {
    if entry != "" && name != "" {
      ComparisonFindsName(entry[1..], name[1..]);
      assert name == [name[0]] + name[1..];
      if |entry| > |name| {
        assert entry[..|name|] == [entry[0]] + entry[1..][..|name| - 1];
        assert entry[..|name|][1..] == entry[1..][..|name| - 1];
      }
      assert NameOf(entry[1..]).Some? ==> ([entry[0]] + NameOf(entry[1..]).value)[1..] == NameOf(entry[1..]).value;
    }
  }

  lemma EntryNames(name: string, value: string)
    requires '=' !in name
    ensures Names(Entry(name, value), name)
    ensures forall other :: other != name ==> !Names(Entry(name, value), other)
    ensures Entry(name, value)[|name| + 1..] == value
  {
    ComparisonFindsName(Entry(name, value), name);
  }

  /** The entries without those that have the name, in their order. */
  function Without(entries: seq<string>, name: string): seq<string> {
    if entries == [] then []
    else Without(entries[..|entries| - 1], name)
         + if Names(entries[|entries| - 1], name) then [] else [entries[|entries| - 1]]
  }

  /** getenv(): the value in the first entry that has the name. */
  function Lookup(entries: seq<string>, name: string): Option<string> {
    if entries == [] then None
    else match Lookup(entries[..|entries| - 1], name)
         case Some(v) => Some(v)
         case None =>
           var e := entries[|entries| - 1];
           if Names(e, name) && |e| > |name| then Some(e[|name| + 1..]) else None
  }

  /** How many entries have the name. */
  function Times(entries: seq<string>, name: string): nat {
    if entries == [] then 0
    else Times(entries[..|entries| - 1], name) + if Names(entries[|entries| - 1], name) then 1 else 0
  }

  lemma {:induction false} WithoutAll(entries: seq<string>, name: string, other: string)
    ensures '=' !in other ==>
      Lookup(Without(entries, name), other) == if other == name then None else Lookup(entries, other)
    ensures Times(Without(entries, name), other) == if other == name then 0 else Times(entries, other)
    ensures Times(entries, name) == 0 <==> Without(entries, name) == entries
    ensures |Without(entries, name)| == |entries| - Times(entries, name)
    decreases |entries|
  {
    if entries != [] {
      var init, e := entries[..|entries| - 1], entries[|entries| - 1];
      WithoutAll(init, name, other);
      if Names(e, name) {
        assert Without(init, name) + [] == Without(init, name);
      } else {
        assert (Without(init, name) + [e])[..|Without(init, name)|] == Without(init, name);
        assert entries == init + [e];
      }
    }
  }

  lemma {:induction false} FoundIff(entries: seq<string>, name: string)
    requires '=' !in name
    ensures Lookup(entries, name).Some? <==> Times(entries, name) > 0
    decreases |entries|
  {
    if entries != [] {
      FoundIff(entries[..|entries| - 1], name);
      ComparisonFindsName(entries[|entries| - 1], name);
    }
  }

  /** Removal, counting and lookup go through the list in order. */
  lemma {:induction false} Splits(a: seq<string>, b: seq<string>, name: string)
    ensures Without(a + b, name) == Without(a, name) + Without(b, name)
    ensures Times(a + b, name) == Times(a, name) + Times(b, name)
    ensures Lookup(a + b, name) == if Lookup(a, name).Some? then Lookup(a, name) else Lookup(b, name)
    decreases |b|
  {
    if b == [] {
      assert a + b == a;
    } else {
      assert (a + b)[..|a + b| - 1] == a + b[..|b| - 1];
      Splits(a, b[..|b| - 1], name);
    }
  }

  lemma OneEntry(e: string, name: string)
    requires '=' !in name
    ensures Without([e], name) == if Names(e, name) then [] else [e]
    ensures Times([e], name) == if Names(e, name) then 1 else 0
    ensures Lookup([e], name) == if Names(e, name) && |e| > |name| then Some(e[|name| + 1..]) else None
    ensures Names(e, name) ==> |e| > |name|
  {
    ComparisonFindsName(e, name);
    assert [e][..0] == [];
  }

  /** Where no entry has the name, removal keeps the list as it is. */
  lemma {:induction false} NoneNamed(entries: seq<string>, name: string)
    requires forall i :: 0 <= i < |entries| ==> !Names(entries[i], name)
    ensures Without(entries, name) == entries && Times(entries, name) == 0 && Lookup(entries, name) == None
    decreases |entries|
  {
    if entries != [] {
      NoneNamed(entries[..|entries| - 1], name);
      assert entries == entries[..|entries| - 1] + [entries[|entries| - 1]];
    }
  }

  // ---------------------------------------------------------------- setenv.c

  /** What an overwriting setenv() leaves when it succeeds. */
  function Set(entries: seq<string>, name: string, value: string): seq<string> {
    Without(entries, name) + [Entry(name, value)]
  }

  /** The new value is found, it is the only entry of that name, every other name keeps its value, and unsetenv() undoes
      the call but for what it had overwritten. */
  lemma SetAll(entries: seq<string>, name: string, value: string, other: string)
    requires '=' !in name && '=' !in other
    ensures Lookup(Set(entries, name, value), name) == Some(value)
    ensures Times(Set(entries, name, value), name) == 1
    ensures other != name ==> Lookup(Set(entries, name, value), other) == Lookup(entries, other)
    ensures Without(Set(entries, name, value), name) == Without(entries, name)
  {
    hide Lookup, Times, Without, Names;
    var rest, e := Without(entries, name), Entry(name, value);
    EntryNames(name, value);
    WithoutAll(entries, name, name);
    WithoutAll(entries, name, other);
    WithoutAll(rest, name, name);
    Splits(rest, [e], name);
    Splits(rest, [e], other);
    OneEntry(e, name);
    OneEntry(e, other);
  }

  /** POSIX asks that a failed setenv() leave the environment unchanged. A failure after the removal does so if and only
      if there was nothing to remove. */
  lemma FailureKeepsIff(entries: seq<string>, name: string)
    requires '=' !in name
    ensures Without(entries, name) == entries <==> Lookup(entries, name) == None
  {
    WithoutAll(entries, name, name);
    FoundIff(entries, name);
  }

  // ---------------------------------------------------------------- exercise_3.c

  /** The position of the first entry of that name. */
  function FirstNamed(entries: seq<string>, name: string): (i: nat)
    ensures i <= |entries|
    ensures forall k :: 0 <= k < i ==> !Names(entries[k], name)
    ensures i < |entries| ==> Names(entries[i], name)
  {
    if entries == [] then 0
    else
      var i := FirstNamed(entries[..|entries| - 1], name);
      if i < |entries| - 1 || Names(entries[|entries| - 1], name) then i else |entries|
  }

  /** putenv(): that entry is replaced, or without one the new entry is appended. */
  function Put(entries: seq<string>, name: string, entry: string): seq<string> {
    var i := FirstNamed(entries, name);
    if i < |entries| then entries[i := entry] else entries + [entry]
  }

  /** my_setenv() removes nothing: the value is found and other names keep theirs, but as many entries of the name
      remain as there were. */
  lemma PutAll(entries: seq<string>, name: string, value: string, other: string)
    requires '=' !in name && '=' !in other
    ensures var after := Put(entries, name, Entry(name, value));
      && Lookup(after, name) == Some(value)
      && Times(after, name) == (if Times(entries, name) == 0 then 1 else Times(entries, name))
      && (other != name ==> Lookup(after, other) == Lookup(entries, other))
  {
    var e, i := Entry(name, value), FirstNamed(entries, name);
    var a := entries[..i];
    NoneNamed(a, name);
    EntryNames(name, value);
    assert i < |entries| ==> Names(entries[i], name);
    assert Put(entries, name, e) == if i < |entries| then entries[i := e] else entries + [e];
    hide Lookup, Times, Names, Without, Put;
    OneEntry(e, name);
    if i < |entries| {
      At(entries, i, e);
      OneEntry(entries[i], name);
      Replaced(a, entries[i], e, entries[i + 1..], name);
      if other != name {
        OtherLookups(a, entries[i], e, entries[i + 1..], name, other);
      }
    } else {
      assert entries == a;
      Splits(a, [e], name);
      Splits(a, [e], other);
      OneEntry(e, other);
    }
  }

  lemma At(entries: seq<string>, i: nat, e: string)
    requires i < |entries|
    ensures entries == entries[..i] + ([entries[i]] + entries[i + 1..])
    ensures entries[i := e] == entries[..i] + ([e] + entries[i + 1..])
  {
  }

  lemma Replaced(a: seq<string>, old': string, e: string, b: seq<string>, name: string)
    requires Lookup(a, name) == None && Times(a, name) == 0 && '=' !in name && Names(old', name) && Names(e, name)
    ensures Lookup(a + ([e] + b), name) == Lookup([e], name)
    ensures Times(a + ([e] + b), name) == Times(a + ([old'] + b), name) > 0
  {
    hide Lookup, Times, Names;
    OneEntry(e, name);
    OneEntry(old', name);
    ThroughMiddle(a, e, b, name);
    ThroughMiddle(a, old', b, name);
  }

  lemma OtherLookups(a: seq<string>, old': string, e: string, b: seq<string>, name: string, other: string)
    requires '=' !in other && Names(old', name) && Names(e, name) && other != name
    ensures Lookup(a + ([e] + b), other) == Lookup(a + ([old'] + b), other)
  {
    NamesOnce(old', name, other);
    NamesOnce(e, name, other);
    hide Lookup, Times, Names;
    OneEntry(e, other);
    OneEntry(old', other);
    ThroughMiddle(a, e, b, other);
    ThroughMiddle(a, old', b, other);
  }

  lemma NamesOnce(e: string, name: string, other: string)
    ensures Names(e, name) && Names(e, other) ==> name == other
  {
  }

  lemma ThroughMiddle(a: seq<string>, e: string, b: seq<string>, name: string)
    ensures Times(a + ([e] + b), name) == Times(a, name) + Times([e], name) + Times(b, name)
    ensures Lookup(a + ([e] + b), name)
         == if Lookup(a, name).Some? then Lookup(a, name)
            else if Lookup([e], name).Some? then Lookup([e], name) else Lookup(b, name)
  {
    Splits(a, [e] + b, name);
    Splits([e], b, name);
  }

  /** After the removal, putenv() appends. */
  lemma AppendsWhenAbsent(entries: seq<string>, name: string, e: string)
    requires '=' !in name
    ensures Put(Without(entries, name), name, e) == Without(entries, name) + [e]
  {
    var rest := Without(entries, name);
    WithoutAll(entries, name, name);
    forall i | 0 <= i < |rest| ensures !Names(rest[i], name) {
      NamedCounts(rest, i, name);
    }
  }

  lemma NamedCounts(entries: seq<string>, i: nat, name: string)
    requires '=' !in name && i < |entries|
    ensures Names(entries[i], name) ==> Times(entries, name) > 0
  {
    hide Names, Times, Lookup;
    At(entries, i, "");
    ThroughMiddle(entries[..i], entries[i], entries[i + 1..], name);
    OneEntry(entries[i], name);
  }

  lemma RemovedAt(entries: seq<string>, i: nat, name: string)
    requires '=' !in name && i < |entries| && Names(entries[i], name)
    ensures Without(entries[..i] + entries[i + 1..], name) == Without(entries, name)
  {
    hide Names, Times, Lookup, Without;
    At(entries, i, "");
    Splits(entries[..i], entries[i + 1..], name);
    Splits(entries[..i], [entries[i]] + entries[i + 1..], name);
    Splits([entries[i]], entries[i + 1..], name);
    OneEntry(entries[i], name);
  }

  lemma FoundFirst(entries: seq<string>, name: string)
    requires '=' !in name
    ensures var i := FirstNamed(entries, name);
      if i < |entries| then |entries[i]| > |name| && Lookup(entries, name) == Some(entries[i][|name| + 1..])
      else Lookup(entries, name) == None
  {
    var i := FirstNamed(entries, name);
    NoneNamed(entries[..i], name);
    if i < |entries| {
      hide Lookup, Times;
      At(entries, i, "");
      OneEntry(entries[i], name);
      ThroughMiddle(entries[..i], entries[i], entries[i + 1..], name);
    } else {
      assert entries[..i] == entries;
    }
  }

  // ---------------------------------------------------------------- the programs

  /** The comparison of an entry with a name: strncmp() over the length of the name, then the next character. */
  predicate Compare(entry: string, name: string) {
    |entry| > |name| && entry[..|name|] == name && entry[|name|] == '='
  }

  lemma WithoutStarts(entries: seq<string>, name: string)
    ensures Without(entries[..0], name) == []
  {
  }

  lemma WithoutGoesOn(entries: seq<string>, i: nat, name: string)
    requires '=' !in name && i < |entries|
    ensures Without(entries[..i + 1], name)
         == Without(entries[..i], name) + if Compare(entries[i], name) then [] else [entries[i]]
  {
    ComparisonFindsName(entries[i], name);
    assert entries[..i + 1][..i] == entries[..i];
  }

  /** environ: the cells up to the first NULL. */
  class Environ {
    var cells: array<Option<string>>
    /** Where the NULL is. */
    ghost var end: nat

    ghost predicate Valid()
      reads this, cells
    {
      && end < cells.Length && cells[end] == None
      && forall i :: 0 <= i < end ==> cells[i].Some?
    }

    /** The list as exec() hands it over. */
    constructor (entries: seq<string>)
      ensures Valid() && Contents() == entries && fresh(cells)
      ensures cells.Length == |entries| + 1 && cells[|entries|] == None
      ensures forall i :: 0 <= i < |entries| ==> cells[i] == Some(entries[i])
    {
      var n := |entries|;
      cells := new Option<string>[n + 1](i => if 0 <= i < n then Some(entries[i]) else None);
      end := n;
    }

    ghost function Contents(): (entries: seq<string>)
      requires Valid()
      reads this, cells
      ensures |entries| == end
    {
      Prefix(end)
    }

    /** unsetenv() in setenv.c: each entry found is removed by shifting back all that follow it. */
    method Unsetenv(name: Option<string>) returns (r: int)
      requires Valid()
      modifies this`end, cells
      ensures Valid() && cells == old(cells)
      ensures r == if name == None || name.value == "" || '=' in name.value then -1 else 0
      ensures Contents() == if r == 0 then Without(old(Contents()), name.value) else old(Contents())
    {
      if name.None? || name.value == "" || '=' in name.value {
        return -1;
      }
      var ep := 0;
      while cells[ep] != None
        invariant Valid() && ep <= end
        invariant forall i :: 0 <= i < ep ==> !Names(Contents()[i], name.value)
        invariant Without(Contents(), name.value) == Without(old(Contents()), name.value)
        decreases end - ep
      {
        ComparisonFindsName(Contents()[ep], name.value);
        if Compare(cells[ep].value, name.value) {
          RemovedAt(Contents(), ep, name.value);
          ShiftBack(ep);
        } else {
          ep := ep + 1;
        }
      }
      NoneNamed(Contents(), name.value);
      r := 0;
    }

    /** The inner loop. */
    method ShiftBack(ep: nat)
      requires Valid() && ep < end
      modifies this`end, cells
      ensures Valid() && cells == old(cells) && end == old(end) - 1
      ensures Contents() == old(Contents())[..ep] + old(Contents())[ep + 1..]
    {
      var sp := ep;
      while cells[sp] != None
        invariant ep <= sp <= end < cells.Length && end == old(end)
        invariant forall i :: 0 <= i < ep || sp <= i < cells.Length ==> cells[i] == old(cells[i])
        invariant forall i :: ep <= i < sp ==> cells[i] == old(cells[i + 1])
        decreases end - sp
      {
        cells[sp] := cells[sp + 1];
        sp := sp + 1;
      }
      end := end - 1;
    }

    /** my_unsetenv() in exercise_3.c: one pass that moves the entries kept to the front. */
    method MyUnsetenv(name: Option<string>) returns (r: int)
      requires Valid()
      modifies this`end, cells
      ensures Valid() && cells == old(cells)
      ensures r == if name == None || name.value == "" || '=' in name.value then -1 else 0
      ensures Contents() == if r == 0 then Without(old(Contents()), name.value) else old(Contents())
    {
      hide Names, Without, NameOf, Compare;
      if name.None? || name.value == "" || '=' in name.value {
        return -1;
      }
      var readPtr, writePtr := 0, 0;
      ghost var was, kept := Contents(), [];
      WithoutStarts(was, name.value);
      while cells[readPtr] != None
        invariant writePtr <= readPtr <= end < cells.Length && end == old(end) == |was|
        invariant kept == Without(was[..readPtr], name.value) && |kept| == writePtr
        invariant forall i :: 0 <= i < writePtr ==> cells[i] == Some(kept[i])
        invariant forall i :: readPtr <= i < end ==> cells[i] == Some(was[i])
        invariant cells[end] == None
        decreases end - readPtr
      {
        WithoutGoesOn(was, readPtr, name.value);
        if Compare(cells[readPtr].value, name.value) {
          readPtr := readPtr + 1;
        } else {
          kept := kept + [was[readPtr]];
          cells[writePtr] := cells[readPtr];
          writePtr, readPtr := writePtr + 1, readPtr + 1;
        }
      }
      cells[writePtr] := None;
      end := writePtr;
      assert was[..readPtr] == was;
      assert Contents() == kept;
      r := 0;
    }

    /** The position of the first entry of that name, or of the NULL. */
    method Find(name: string) returns (ep: nat)
      requires Valid() && '=' !in name
      ensures ep == FirstNamed(Contents(), name)
    {
      ep := 0;
      while cells[ep] != None && !Compare(cells[ep].value, name)
        invariant ep <= end
        invariant forall i :: 0 <= i < ep ==> !Names(Contents()[i], name)
        decreases end - ep
      {
        ComparisonFindsName(Contents()[ep], name);
        ep := ep + 1;
      }
      if ep < end {
        ComparisonFindsName(Contents()[ep], name);
      }
    }

    /** getenv() */
    method Getenv(name: string) returns (value: Option<string>)
      requires Valid() && '=' !in name
      ensures value == Lookup(Contents(), name)
    {
      var ep := Find(name);
      FoundFirst(Contents(), name);
      value := if cells[ep] == None then None else Some(cells[ep].value[|name| + 1..]);
    }

    /** putenv() of an entry that has the name; without such an entry it needs memory for a longer array. */
    method Putenv(entry: string, name: string, memory: bool) returns (r: int)
      requires Valid() && '=' !in name && Names(entry, name)
      modifies this, cells
      ensures Valid()
      ensures r == (if FirstNamed(old(Contents()), name) < |old(Contents())| || memory then 0 else -1)
      ensures Contents() == if r == 0 then Put(old(Contents()), name, entry) else old(Contents())
    {
      ghost var was := Contents();
      var ep := Find(name);
      hide Names, FirstNamed;
      if cells[ep] != None {
        cells[ep] := Some(entry);
        assert Contents() == was[ep := entry];
        return 0;
      }
      if !memory {
        return -1;
      }
      Append(ep, entry);
      r := 0;
    }

    /** The list moves to a longer array. */
    method Append(n: nat, entry: string)
      requires Valid() && n == end
      modifies this
      ensures Valid() && Contents() == old(Contents()) + [entry]
    {
      var longer := new Option<string>[n + 2];
      forall i | 0 <= i < n {
        longer[i] := cells[i];
      }
      longer[n], longer[n + 1] := Some(entry), None;
      cells, end := longer, n + 1;
    }

    /** setenv() in setenv.c; entryMemory and listMemory say whether malloc() and putenv() find memory. */
    method Setenv(name: Option<string>, value: Option<string>, overwrite: int, entryMemory: bool, listMemory: bool)
      returns (r: int)
      requires Valid()
      modifies this, cells
      ensures Valid()
      ensures name == None || name.value == "" || '=' in name.value || value == None ==>
        r == -1 && Contents() == old(Contents())
      ensures name.Some? && name.value != "" && '=' !in name.value && value.Some? ==>
        if Lookup(old(Contents()), name.value).Some? && overwrite == 0 then r == 0 && Contents() == old(Contents())
        else
          && (r == 0 ==> Contents() == Set(old(Contents()), name.value, value.value))
          && (r != 0 ==> r == -1 && Contents() == Without(old(Contents()), name.value))
          && (r == 0 <==> entryMemory && listMemory)
    {
      if name.None? || name.value == "" || '=' in name.value || value.None? {
        return -1;
      }
      var found := Getenv(name.value);
      if found.Some? && overwrite == 0 {
        return 0;
      }
      var removed := Unsetenv(name);
      if !entryMemory {
        return -1;
      }
      EntryNames(name.value, value.value);
      AppendsWhenAbsent(old(Contents()), name.value, Entry(name.value, value.value));
      r := Putenv(Entry(name.value, value.value), name.value, listMemory);
    }

    /** my_setenv() in exercise_3.c. */
    method MySetenv(name: Option<string>, value: string, overwrite: int, entryMemory: bool, listMemory: bool)
      returns (r: int)
      requires Valid()
      modifies this, cells
      ensures Valid()
      ensures name == None || name.value == "" || '=' in name.value ==>
        r == -1 && Contents() == old(Contents())
      ensures name.Some? && name.value != "" && '=' !in name.value ==>
        if Lookup(old(Contents()), name.value).Some? && overwrite == 0 then r == 0 && Contents() == old(Contents())
        else
          && (r == 0 ==> Contents() == Put(old(Contents()), name.value, Entry(name.value, value)))
          && (r != 0 ==> r == -1 && Contents() == old(Contents()))
          && (r == 0 <==> entryMemory && (listMemory || Lookup(old(Contents()), name.value).Some?))
    {
      if name.None? || name.value == "" || '=' in name.value {
        return -1;
      }
      var found := Getenv(name.value);
      if found.Some? && overwrite == 0 {
        return 0;
      }
      if !entryMemory {
        return -1;
      }
      EntryNames(name.value, value);
      FoundFirst(Contents(), name.value);
      r := Putenv(Entry(name.value, value), name.value, listMemory);
    }

    ghost function Prefix(n: nat): seq<string>
      requires n <= cells.Length && forall i :: 0 <= i < n ==> cells[i].Some?
      reads this, cells
    {
      seq(n, i requires 0 <= i < n <= cells.Length && cells[i].Some? reads this, cells => cells[i].value)
    }
  }
}
