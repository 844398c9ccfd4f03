/** acl_update.c: parsing of ACL texts. */
module AclParse {
  import opened Basics

  const MAX_ENTRIES: nat := 10000

  datatype Tag = UserObj | User | GroupObj | Group | Mask | Other

  datatype Perms = Perms(read: bool, write: bool, execute: bool)

  /** struct AccessControlEntry; without a permission text the program leaves perms as it was. */
  datatype AccessControlEntry = AccessControlEntry(tag: Tag, qual: nat, perms: Option<Perms>)

  /** userIdFromName() and groupIdFromName(). */
  datatype Names = Names(user: string -> Option<nat>, group: string -> Option<nat>)

  // ---------------------------------------------------------------- what a text means

  function IndexOf(s: string, c: char): (i: nat)
    ensures i <= |s| && c !in s[..i]
    ensures i < |s| ==> s[i] == c
  {
    if s == "" || s[0] == c then 0 else 1 + IndexOf(s[1..], c)
  }

  function TagOf(text: string, hasQual: bool): Option<Tag> {
    if text == "u" || text == "user" then Some(if hasQual then User else UserObj)
    else if text == "g" || text == "group" then Some(if hasQual then Group else GroupObj)
    else if text == "o" || text == "other" then Some(Other)
    else if text == "m" || text == "mask" then Some(Mask)
    else None
  }

  /** The permissions of a text of letters, in any order and number. */
  function PermsOf(text: string): Option<Perms> {
    if text == "" then Some(Perms(false, false, false))
    else
      var c := text[|text| - 1];
      match PermsOf(text[..|text| - 1])
      case None => None
      case Some(p) =>
        if c == 'r' then Some(p.(read := true))
        else if c == 'w' then Some(p.(write := true))
        else if c == 'x' then Some(p.(execute := true))
        else if c == '-' then Some(p)
        else None
  }

  function QualOf(tag: Tag, text: string, names: Names): Option<nat> {
    if tag == User then names.user(text) else if tag == Group then names.group(text) else Some(0)
  }

  /** What follows the tag and its colon is [qualifier][:[perms]]. */
  function ParseRest(tagText: string, rest: string, permsReqd: bool, names: Names): Option<AccessControlEntry> {
    var colon2 := IndexOf(rest, ':');
    var hasQual := rest != "" && rest[0] != ':';
    var hasPerms := colon2 + 1 < |rest|;
    var tag := TagOf(tagText, hasQual);
    if hasPerms != permsReqd || tag.None? then None
    else
      var qual := QualOf(tag.value, rest[..colon2], names);
      if qual.None? then None
      else if !hasPerms then Some(AccessControlEntry(tag.value, qual.value, None))
      else
        match PermsOf(rest[colon2 + 1..])
        case None => None
        case Some(p) => Some(AccessControlEntry(tag.value, qual.value, Some(p)))
  }

  function ParseEntry(s: string, permsReqd: bool, names: Names): Option<AccessControlEntry> {
    var colon1 := IndexOf(s, ':');
    if colon1 == |s| then None else ParseRest(s[..colon1], s[colon1 + 1..], permsReqd, names)
  }

  /** The entries between commas, in order. */
  function ParseAll(s: string, permsReqd: bool, names: Names): (r: Option<seq<AccessControlEntry>>)
    ensures r.Some? ==> r.value != []
    decreases |s|
  {
    var comma := IndexOf(s, ',');
    match ParseEntry(s[..comma], permsReqd, names)
    case None => None
    case Some(ace) =>
      if comma == |s| then Some([ace]) else After([ace], ParseAll(s[comma + 1..], permsReqd, names))
  }

  /** What the rest of a text adds to the entries found before. */
  function After(found: seq<AccessControlEntry>, rest: Option<seq<AccessControlEntry>>)
    : Option<seq<AccessControlEntry>>
  {
    match rest case None => None case Some(aces) => Some(found + aces)
  }

  // ---------------------------------------------------------------- texts and their meaning

  function TagText(tag: Tag): string {
    match tag
    case UserObj => "u" case User => "u" case GroupObj => "g" case Group => "g" case Mask => "m" case Other => "o"
  }

  function PermsText(p: Perms): string {
    [if p.read then 'r' else '-', if p.write then 'w' else '-', if p.execute then 'x' else '-']
  }

  /** A qualifier text for the entry. */
  ghost predicate Qualifies(ace: AccessControlEntry, text: string, names: Names) {
    && ':' !in text && ',' !in text
    && (text != "" <==> ace.tag == User || ace.tag == Group)
    && QualOf(ace.tag, text, names) == Some(ace.qual)
  }

  function RestText(ace: AccessControlEntry, qualifier: string): string {
    qualifier + match ace.perms case Some(p) => ":" + PermsText(p) case None => ""
  }

  function EntryText(ace: AccessControlEntry, qualifier: string): string {
    TagText(ace.tag) + ":" + RestText(ace, qualifier)
  }

  lemma {:induction false} IndexOfFirst(a: string, c: char, b: string)
    requires c !in a
    ensures IndexOf(a + [c] + b, c) == |a|
    ensures IndexOf(a, c) == |a|
    decreases |a|
  {
    if a != "" {
      assert (a + [c] + b)[1..] == a[1..] + [c] + b;
      assert c != a[0] && c !in a[1..];
      IndexOfFirst(a[1..], c, b);
    }
  }

  lemma PermsRoundTrip(p: Perms)
    ensures PermsOf(PermsText(p)) == Some(p)
  {
    var t := PermsText(p);
    assert t[..2][..1] == t[..1] && t[..1][..0] == "";
    assert PermsOf(t[..1]) == Some(Perms(p.read, false, false));
    assert PermsOf(t[..2]) == Some(Perms(p.read, p.write, false));
  }

  lemma RestParts(ace: AccessControlEntry, qualifier: string, names: Names)
    requires Qualifies(ace, qualifier, names)
    ensures var rest := RestText(ace, qualifier);
      && IndexOf(rest, ':') == |qualifier| && rest[..|qualifier|] == qualifier
      && (rest != "" && rest[0] != ':' <==> qualifier != "")
      && (|qualifier| + 1 < |rest| <==> ace.perms.Some?)
      && (ace.perms.Some? ==> rest[|qualifier| + 1..] == PermsText(ace.perms.value))
  {
    if ace.perms.Some? {
      assert qualifier + (":" + PermsText(ace.perms.value)) == qualifier + [':'] + PermsText(ace.perms.value);
      IndexOfFirst(qualifier, ':', PermsText(ace.perms.value));
    } else {
      IndexOfFirst(qualifier, ':', "");
    }
  }

  lemma RestRoundTrip(ace: AccessControlEntry, qualifier: string, permsReqd: bool, names: Names)
    requires Qualifies(ace, qualifier, names)
    ensures ParseRest(TagText(ace.tag), RestText(ace, qualifier), permsReqd, names)
         == if ace.perms.Some? == permsReqd then Some(ace) else None
  {
    RestParts(ace, qualifier, names);
    if ace.perms.Some? {
      PermsRoundTrip(ace.perms.value);
    }
    hide PermsOf, QualOf, IndexOf, RestText, PermsText;
  }

  lemma EntryRoundTrip(ace: AccessControlEntry, qualifier: string, permsReqd: bool, names: Names)
    requires Qualifies(ace, qualifier, names)
    ensures ParseEntry(EntryText(ace, qualifier), permsReqd, names)
         == if ace.perms.Some? == permsReqd then Some(ace) else None
  {
    hide ParseRest, RestText, Qualifies;
    var s, t, rest := EntryText(ace, qualifier), TagText(ace.tag), RestText(ace, qualifier);
    assert s == t + [':'] + rest;
    IndexOfFirst(t, ':', rest);
    assert s[..|t|] == t && s[|t| + 1..] == rest;
    RestRoundTrip(ace, qualifier, permsReqd, names);
  }

  lemma NoComma(ace: AccessControlEntry, qualifier: string)
    requires ',' !in qualifier
    ensures ',' !in EntryText(ace, qualifier)
  {
  }

  lemma NoCommaWhenQualified(ace: AccessControlEntry, qualifier: string, names: Names)
    requires Qualifies(ace, qualifier, names)
    ensures ',' !in EntryText(ace, qualifier)
  {
    NoComma(ace, qualifier);
  }

  function AclText(aces: seq<AccessControlEntry>, qualifiers: seq<string>): string
    requires |aces| == |qualifiers| > 0
  {
    var first := EntryText(aces[0], qualifiers[0]);
    if |aces| == 1 then first else first + "," + AclText(aces[1..], qualifiers[1..])
  }

  lemma FirstOfMany(first: string, more: string, permsReqd: bool, names: Names)
    requires ',' !in first && ParseEntry(first, permsReqd, names).Some?
    ensures ParseAll(first + "," + more, permsReqd, names)
         == After([ParseEntry(first, permsReqd, names).value], ParseAll(more, permsReqd, names))
  {
    hide ParseEntry, IndexOf, After;
    var s := first + [','] + more;
    assert first + "," + more == s;
    IndexOfFirst(first, ',', more);
    assert s[..|first|] == first && s[|first| + 1..] == more;
  }

  lemma OnlyOne(first: string, permsReqd: bool, names: Names)
    requires ',' !in first && ParseEntry(first, permsReqd, names).Some?
    ensures ParseAll(first, permsReqd, names) == Some([ParseEntry(first, permsReqd, names).value])
  {
    hide ParseEntry, IndexOf, After;
    IndexOfFirst(first, ',', "");
    assert first[..|first|] == first;
  }

  /** Writing out entries and parsing the text gives the entries back. */
  lemma {:induction false} AclRoundTrip(aces: seq<AccessControlEntry>, qualifiers: seq<string>, permsReqd: bool,
      names: Names)
    requires |aces| == |qualifiers| > 0
    requires forall i :: 0 <= i < |aces| ==>
      Qualifies(aces[i], qualifiers[i], names) && aces[i].perms.Some? == permsReqd
    ensures ParseAll(AclText(aces, qualifiers), permsReqd, names) == Some(aces)
    decreases |aces|
  {
    hide ParseEntry, ParseAll, Qualifies, EntryText, IndexOf;
    var first := EntryText(aces[0], qualifiers[0]);
    EntryRoundTrip(aces[0], qualifiers[0], permsReqd, names);
    NoCommaWhenQualified(aces[0], qualifiers[0], names);
    if |aces| == 1 {
      OnlyOne(first, permsReqd, names);
      assert [aces[0]] == aces;
    } else {
      AclRoundTrip(aces[1..], qualifiers[1..], permsReqd, names);
      FirstOfMany(first, AclText(aces[1..], qualifiers[1..]), permsReqd, names);
      assert [aces[0]] + aces[1..] == aces;
    }
  }

  // ---------------------------------------------------------------- the program

  /** The characters from start up to the terminating NUL at end. */
  ghost predicate CString(a: array<char>, start: nat, end: nat)
    reads a
  {
    start <= end < a.Length && a[end] == '\0' && forall k :: start <= k < end ==> a[k] != '\0'
  }

  /** strchr(); the position of the NUL stands for a NULL result. */
  method StrChr(a: array<char>, start: nat, c: char, ghost end: nat) returns (i: nat)
    requires CString(a, start, end) && c != '\0'
    ensures i == start + IndexOf(a[start..end], c)
  {
    i := start;
    while a[i] != '\0' && a[i] != c
      invariant start <= i <= end
      invariant start + IndexOf(a[start..end], c) == i + IndexOf(a[i..end], c)
      decreases end - i
    {
      assert a[i..end][1..] == a[i + 1..end];
      i := i + 1;
    }
  }

  method ParsePerms(a: array<char>, start: nat, ghost end: nat) returns (r: Option<Perms>)
    requires CString(a, start, end)
    ensures r == PermsOf(a[start..end])
  {
    var p := start;
    var perms := Perms(false, false, false);
    while a[p] != '\0'
      invariant start <= p <= end
      invariant PermsOf(a[start..p]) == Some(perms)
      decreases end - p
    {
      assert a[start..p + 1][..p - start] == a[start..p];
      PermsOfPrefix(a[start..end], p + 1 - start);
      assert a[start..end][..p + 1 - start] == a[start..p + 1];
      if a[p] == 'r' {
        perms := perms.(read := true);
      } else if a[p] == 'w' {
        perms := perms.(write := true);
      } else if a[p] == 'x' {
        perms := perms.(execute := true);
      } else if a[p] != '-' {
        return None;
      }
      p := p + 1;
    }
    r := Some(perms);
  }

  lemma {:induction false} PermsOfPrefix(text: string, n: nat)
    requires n <= |text|
    ensures PermsOf(text[..n]) == None ==> PermsOf(text) == None
    decreases |text|
  {
    if n < |text| {
      assert text[..|text| - 1][..n] == text[..n];
      PermsOfPrefix(text[..|text| - 1], n);
    } else {
      assert text[..n] == text;
    }
  }

  /** parseEntrySpec() from its second colon on; a terminator is written over that colon. */
  method ParseRestSpec(tagText: string, a: array<char>, start: nat, ghost end: nat, permsReqd: bool, names: Names)
    returns (r: Option<AccessControlEntry>)
    requires CString(a, start, end)
    modifies a
    ensures r == ParseRest(tagText, old(a[start..end]), permsReqd, names)
    ensures forall k :: 0 <= k < a.Length && !(start <= k < end) ==> a[k] == old(a[k])
  {
    hide TagOf, QualOf, PermsOf;
    ghost var rest := a[start..end];
    var hasQual := a[start] != '\0' && a[start] != ':';
    var colon2 := StrChr(a, start, ':', end);
    ghost var colon := IndexOf(rest, ':');
    hide IndexOf;
    assert colon2 == start + colon && colon <= |rest|;
    var hasPerms := a[colon2] != '\0' && a[colon2 + 1] != '\0';
    assert hasPerms <==> colon + 1 < |rest|;
    if hasPerms != permsReqd {
      return None;
    }
    var tag := TagOf(tagText, hasQual);
    if tag == None {
      return None;
    }
    if a[colon2] != '\0' {
      a[colon2] := '\0';
    }
    assert a[start..colon2] == rest[..colon];
    var qual := QualOf(tag.value, a[start..colon2], names);
    if qual == None {
      return None;
    }
    r := Some(AccessControlEntry(tag.value, qual.value, None));
    if hasPerms {
      assert a[colon2 + 1..end] == rest[colon + 1..];
      var perms := ParsePerms(a, colon2 + 1, end);
      r := if perms == None then None else Some(r.value.(perms := perms));
    }
  }

  /** parseEntrySpec(): a terminator is written over the first colon. */
  method ParseEntrySpec(a: array<char>, start: nat, ghost end: nat, permsReqd: bool, names: Names)
    returns (r: Option<AccessControlEntry>)
    requires CString(a, start, end)
    modifies a
    ensures r == ParseEntry(old(a[start..end]), permsReqd, names)
    ensures forall k :: 0 <= k < a.Length && !(start <= k < end) ==> a[k] == old(a[k])
  {
    hide ParseEntry, ParseRest, IndexOf;
    ghost var s := a[start..end];
    ghost var colon := FirstColon(s, permsReqd, names);
    var colon1 := StrChr(a, start, ':', end);
    assert colon1 == start + colon;
    if a[colon1] == '\0' {
      return None;
    }
    a[colon1] := '\0';
    assert a[colon1 + 1..end] == s[colon + 1..];
    assert a[start..colon1] == s[..colon];
    r := ParseRestSpec(a[start..colon1], a, colon1 + 1, end, permsReqd, names);
  }

  lemma FirstColon(s: string, permsReqd: bool, names: Names) returns (colon: nat)
    ensures colon == IndexOf(s, ':') <= |s|
    ensures ParseEntry(s, permsReqd, names)
         == if colon == |s| then None else ParseRest(s[..colon], s[colon + 1..], permsReqd, names)
  {
    colon := IndexOf(s, ':');
    hide ParseRest, IndexOf;
  }

  lemma AfterAfter(found: seq<AccessControlEntry>, ace: AccessControlEntry, rest: Option<seq<AccessControlEntry>>)
    ensures After(found, After([ace], rest)) == After(found + [ace], rest)
    ensures After(found, Some([ace])) == Some(found + [ace])
    ensures After([], rest) == rest
    ensures After(found, None) == None
  {
    if rest.Some? {
      assert found + ([ace] + rest.value) == found + [ace] + rest.value;
      assert [] + rest.value == rest.value;
    }
  }

  /** One turn of the loop. */
  lemma OneMore(found: seq<AccessControlEntry>, text: string, comma: nat, permsReqd: bool, names: Names)
    requires comma == IndexOf(text, ',') <= |text|
    ensures var ace := ParseEntry(text[..comma], permsReqd, names);
      After(found, ParseAll(text, permsReqd, names))
      == if ace.None? then None
         else if comma == |text| then Some(found + [ace.value])
         else After(found + [ace.value], ParseAll(text[comma + 1..], permsReqd, names))
  {
    hide ParseEntry, IndexOf;
    var ace := ParseEntry(text[..comma], permsReqd, names);
    if ace.Some? {
      AfterAfter(found, ace.value, if comma < |text| then ParseAll(text[comma + 1..], permsReqd, names) else None);
    }
  }

  lemma MoreThanFound(found: seq<AccessControlEntry>, text: string, permsReqd: bool, names: Names)
    ensures var all := After(found, ParseAll(text, permsReqd, names)); all.None? || |all.value| > |found|
  {
  }

  /** parseACL(): a terminator is written over each comma, and the entries go to the array. */
  method ParseACL(a: array<char>, ghost end: nat, aclist: array<AccessControlEntry>, permsReqd: bool, names: Names)
    returns (r: int)
    requires CString(a, 0, end) && aclist.Length >= MAX_ENTRIES
    modifies a, aclist
    ensures var parsed := ParseAll(old(a[..end]), permsReqd, names);
      if parsed.Some? && |parsed.value| <= 10000
      then r == |parsed.value| && aclist[..r] == parsed.value
      else r == -1
  {
    hide ParseEntry, ParseAll, IndexOf, After;
    ghost var s, found := a[..end], [];
    var n, nextEntry := 0, 0;
    StartsWhole(s, permsReqd, names);
    while true
      invariant nextEntry <= end && n == |found| <= MAX_ENTRIES && aclist[..n] == found
      invariant forall k :: nextEntry <= k <= end ==> a[k] == old(a[k])
      invariant ParseAll(s, permsReqd, names) == After(found, ParseAll(s[nextEntry..], permsReqd, names))
      decreases end - nextEntry
    {
      MoreThanFound(found, s[nextEntry..], permsReqd, names);
      if n >= MAX_ENTRIES {
        return -1;
      }
      assert a[nextEntry..end] == s[nextEntry..];
      var comma := StrChr(a, nextEntry, ',', end);
      OneMore(found, s[nextEntry..], comma - nextEntry, permsReqd, names);
      var last := a[comma] == '\0';
      if !last {
        a[comma] := '\0';
      }
      assert a[nextEntry..comma] == s[nextEntry..][..comma - nextEntry];
      var ace := ParseEntrySpec(a, nextEntry, comma, permsReqd, names);
      if ace == None {
        return -1;
      }
      aclist[n] := ace.value;
      found := found + [ace.value];
      if last {
        return n + 1;
      }
      assert s[nextEntry..][comma - nextEntry + 1..] == s[comma + 1..];
      n, nextEntry := n + 1, comma + 1;
    }
  }

  lemma StartsWhole(s: string, permsReqd: bool, names: Names)
    ensures ParseAll(s, permsReqd, names) == After([], ParseAll(s[0..], permsReqd, names))
  {
    hide ParseAll;
    assert s[0..] == s;
    AfterAfter([], AccessControlEntry(Mask, 0, None), ParseAll(s, permsReqd, names));
  }
}
