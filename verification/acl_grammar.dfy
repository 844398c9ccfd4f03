/** The texts that acl_update.c accepts as ACLs, as a grammar, and that its parser accepts exactly these. */
module AclGrammar {
  import opened Basics
  import opened AclParse

  // ---------------------------------------------------------------- permissions

  /** Letters r, w, x and -, in any order and number. */
  ghost predicate PermLetters(text: string) {
    forall c :: c in text ==> c == 'r' || c == 'w' || c == 'x' || c == '-'
  }

  /** A text gives permissions if and only if it has no other letters; each permission is given if and only if its
      letter is there. */
  lemma {:induction false} PermsMean(text: string)
    ensures PermsOf(text).Some? <==> PermLetters(text)
    ensures PermsOf(text).Some? ==>
      PermsOf(text) == Some(Perms('r' in text, 'w' in text, 'x' in text))
    decreases |text|
  {
    if text != "" {
      var init, c := text[..|text| - 1], text[|text| - 1];
      PermsMean(init);
      assert text == init + [c];
      assert c in text;
      assert forall d :: d in text <==> d in init || d == c;
    }
  }

  // ---------------------------------------------------------------- tags

  /** Every tag has a short and a long name. With a qualifier the first two name a user or a group, without one the
      owner and the owning group. */
  ghost predicate Spells(text: string, qualified: bool, tag: Tag) {
    match tag
    case User => (text == "u" || text == "user") && qualified
    case UserObj => (text == "u" || text == "user") && !qualified
    case Group => (text == "g" || text == "group") && qualified
    case GroupObj => (text == "g" || text == "group") && !qualified
    case Other => text == "o" || text == "other"
    case Mask => text == "m" || text == "mask"
  }

  lemma TagsMean(text: string, qualified: bool, tag: Tag)
    ensures TagOf(text, qualified) == Some(tag) <==> Spells(text, qualified, tag)
  {
  }

  // ---------------------------------------------------------------- one entry

  /** The text is tag:qualifier or tag:qualifier:permissions. */
  ghost predicate Parts(s: string, tag: string, qualifier: string, perms: Option<string>) {
    && ':' !in tag && ':' !in qualifier
    && s == tag + ":" + qualifier + match perms case None => "" case Some(p) => ":" + p
  }

  function GivenPerms(perms: Option<string>): string {
    match perms case None => "" case Some(p) => p
  }

  /** Such a text means the entry. Permissions are given exactly if they are required. */
  ghost predicate Means(tag: string, qualifier: string, perms: Option<string>, permsReqd: bool, names: Names,
                        ace: AccessControlEntry) {
    var p := GivenPerms(perms);
    && (p != "" <==> permsReqd)
    && Spells(tag, qualifier != "", ace.tag)
    && (match ace.tag
        case User => names.user(qualifier) == Some(ace.qual)
        case Group => names.group(qualifier) == Some(ace.qual)
        case _ => ace.qual == 0)
    && PermLetters(p)
    && ace.perms == if permsReqd then Some(Perms('r' in p, 'w' in p, 'x' in p)) else None
  }

  lemma {:induction false} FirstOf(s: string, c: char) returns (i: nat)
    ensures i == IndexOf(s, c) <= |s| && c !in s[..i]
    ensures i == |s| ==> c !in s
    ensures i < |s| ==> s == s[..i] + [c] + s[i + 1..]
  {
    i := IndexOf(s, c);
    hide IndexOf;
    assert i == |s| ==> s[..i] == s;
  }

  /** What the parser makes of the parts. */
  lemma PartsParsed(s: string, tag: string, qualifier: string, perms: Option<string>, permsReqd: bool, names: Names)
    requires Parts(s, tag, qualifier, perms)
    ensures ParseEntry(s, permsReqd, names) == RestParsed(tag, qualifier, perms, permsReqd, names)
  {
    var rest := qualifier + match perms case None => "" case Some(p) => ":" + p;
    assert s == tag + [':'] + rest;
    IndexOfFirst(tag, ':', rest);
    assert s[..|tag|] == tag && s[|tag| + 1..] == rest;
    RestIs(tag, qualifier, perms, rest, permsReqd, names);
    hide ParseRest, IndexOf;
  }

  function RestParsed(tag: string, qualifier: string, perms: Option<string>, permsReqd: bool, names: Names)
    : Option<AccessControlEntry>
  {
    var p, t := GivenPerms(perms), TagOf(tag, qualifier != "");
    if (p != "") != permsReqd || t.None? then None
    else
      var qual := QualOf(t.value, qualifier, names);
      if qual.None? then None
      else if p == "" then Some(AccessControlEntry(t.value, qual.value, None))
      else match PermsOf(p)
           case None => None
           case Some(given) => Some(AccessControlEntry(t.value, qual.value, Some(given)))
  }

  lemma RestIs(tag: string, qualifier: string, perms: Option<string>, rest: string, permsReqd: bool, names: Names)
    requires ':' !in qualifier
    requires rest == qualifier + match perms case None => "" case Some(p) => ":" + p
    ensures ParseRest(tag, rest, permsReqd, names) == RestParsed(tag, qualifier, perms, permsReqd, names)
  {
    if perms.Some? {
      assert rest == qualifier + [':'] + perms.value;
      IndexOfFirst(qualifier, ':', perms.value);
      assert rest[|qualifier| + 1..] == perms.value;
    } else {
      assert rest == qualifier;
      IndexOfFirst(qualifier, ':', "");
    }
    assert rest[..|qualifier|] == qualifier;
    assert rest != "" && rest[0] != ':' <==> qualifier != "" by {
      assert qualifier != "" ==> qualifier[0] in qualifier && rest[0] == qualifier[0];
    }
    hide TagOf, QualOf, PermsOf, IndexOf;
  }

  lemma ParsedMeans(tag: string, qualifier: string, perms: Option<string>, permsReqd: bool, names: Names,
                    ace: AccessControlEntry)
    ensures RestParsed(tag, qualifier, perms, permsReqd, names) == Some(ace) <==>
      Means(tag, qualifier, perms, permsReqd, names, ace)
  {
    var p := GivenPerms(perms);
    PermsMean(p);
    TagsMean(tag, qualifier != "", ace.tag);
    forall t: Tag ensures TagOf(tag, qualifier != "") == Some(t) <==> Spells(tag, qualifier != "", t) {
      TagsMean(tag, qualifier != "", t);
    }
    hide TagOf, PermsOf, Spells;
  }

  /** A text is accepted as an entry if and only if it has the form tag:[qualifier][:[permissions]] and its parts mean
      that entry. */
  lemma ParseEntryIff(s: string, permsReqd: bool, names: Names, ace: AccessControlEntry)
    ensures ParseEntry(s, permsReqd, names) == Some(ace) <==>
      exists tag, qualifier, perms ::
        Parts(s, tag, qualifier, perms) && Means(tag, qualifier, perms, permsReqd, names, ace)
  {
    hide Means, RestParsed;
    forall tag, qualifier, perms | Parts(s, tag, qualifier, perms)
      ensures ParseEntry(s, permsReqd, names) == Some(ace) <==>
        Means(tag, qualifier, perms, permsReqd, names, ace)
    {
      PartsParsed(s, tag, qualifier, perms, permsReqd, names);
      ParsedMeans(tag, qualifier, perms, permsReqd, names, ace);
    }
    if ParseEntry(s, permsReqd, names) == Some(ace) {
      var tag, qualifier, perms := SomeParts(s, permsReqd, names);
      assert Parts(s, tag, qualifier, perms);
    }
  }

  /** A text with a colon has parts. */
  lemma SomeParts(s: string, permsReqd: bool, names: Names)
    returns (tag: string, qualifier: string, perms: Option<string>)
    requires ParseEntry(s, permsReqd, names).Some?
    ensures Parts(s, tag, qualifier, perms)
  {
    HasColon(s, permsReqd, names);
    hide ParseEntry, IndexOf;
    var i := FirstOf(s, ':');
    var rest := s[i + 1..];
    var j := FirstOf(rest, ':');
    tag, qualifier := s[..i], rest[..j];
    perms := if j < |rest| then Some(rest[j + 1..]) else None;
    PartsJoined(s, tag, rest, qualifier, perms);
  }

  lemma HasColon(s: string, permsReqd: bool, names: Names)
    requires ParseEntry(s, permsReqd, names).Some?
    ensures IndexOf(s, ':') < |s|
  {
    hide IndexOf, ParseRest;
  }

  lemma PartsJoined(s: string, tag: string, rest: string, qualifier: string, perms: Option<string>)
    requires ':' !in tag && ':' !in qualifier && s == tag + [':'] + rest
    requires perms.Some? ==> rest == qualifier + [':'] + perms.value
    requires perms.None? ==> rest == qualifier
    ensures Parts(s, tag, qualifier, perms)
  {
    if perms.Some? {
      assert s == tag + ":" + qualifier + (":" + perms.value);
    } else {
      assert s == tag + ":" + qualifier + "";
    }
  }

  /** An entry written with either name of its tag is parsed back. */
  lemma EitherName(ace: AccessControlEntry, tag: string, qualifier: string, names: Names)
    requires ace.perms.Some? && Spells(tag, qualifier != "", ace.tag) && ':' !in tag && ':' !in qualifier
    requires QualOf(ace.tag, qualifier, names) == Some(ace.qual)
    ensures ParseEntry(tag + ":" + qualifier + ":" + PermsText(ace.perms.value), true, names) == Some(ace)
  {
    var text := PermsText(ace.perms.value);
    var s := tag + ":" + qualifier + ":" + text;
    assert s == tag + ":" + qualifier + (":" + text);
    assert Parts(s, tag, qualifier, Some(text));
    PermsRoundTrip(ace.perms.value);
    PermsMean(text);
    hide PermsOf, PermsText;
    assert Means(tag, qualifier, Some(text), true, names, ace);
    ParseEntryIff(s, true, names, ace);
  }

  // ---------------------------------------------------------------- a list of entries

  /** Texts with commas between them. */
  function WithCommas(parts: seq<string>): string
    requires |parts| > 0
  {
    if |parts| == 1 then parts[0] else parts[0] + "," + WithCommas(parts[1..])
  }

  ghost predicate NoCommas(parts: seq<string>) {
    |parts| > 0 && forall i :: 0 <= i < |parts| ==> ',' !in parts[i]
  }

  ghost predicate EachParsed(parts: seq<string>, permsReqd: bool, names: Names, aces: seq<AccessControlEntry>) {
    |parts| == |aces| && forall i :: 0 <= i < |parts| ==> ParseEntry(parts[i], permsReqd, names) == Some(aces[i])
  }

  /** A text is accepted as a list if and only if each of its parts between commas is accepted as an entry; the entries
      come in the order of the text. */
  lemma {:induction false} PartsAreParsed(parts: seq<string>, permsReqd: bool, names: Names,
                                          aces: seq<AccessControlEntry>)
    requires NoCommas(parts)
    ensures ParseAll(WithCommas(parts), permsReqd, names) == Some(aces) <==> EachParsed(parts, permsReqd, names, aces)
    decreases |parts|
  {
    hide ParseEntry, IndexOf, ParseAll;
    var first := parts[0];
    assert ',' !in first;
    if |parts| == 1 {
      LastPart(first, permsReqd, names);
      if EachParsed(parts, permsReqd, names, aces) {
        assert aces == [aces[0]];
      }
    } else {
      var rest := parts[1..];
      assert forall i :: 0 <= i < |rest| ==> rest[i] == parts[i + 1];
      FirstPart(first, WithCommas(rest), permsReqd, names);
      if |aces| > 0 {
        PartsAreParsed(rest, permsReqd, names, aces[1..]);
        assert aces == [aces[0]] + aces[1..];
        EachParsedParts(parts, permsReqd, names, aces);
      }
      if ParseAll(WithCommas(parts), permsReqd, names) == Some(aces) {
        assert aces == [aces[0]] + aces[1..];
        assert ([aces[0]] + ParseAll(WithCommas(rest), permsReqd, names).value)[1..]
            == ParseAll(WithCommas(rest), permsReqd, names).value;
      }
    }
  }

  lemma EachParsedParts(parts: seq<string>, permsReqd: bool, names: Names, aces: seq<AccessControlEntry>)
    requires |parts| > 1 && |aces| > 0
    ensures EachParsed(parts, permsReqd, names, aces) <==>
      ParseEntry(parts[0], permsReqd, names) == Some(aces[0]) && EachParsed(parts[1..], permsReqd, names, aces[1..])
  {
    hide ParseEntry;
    if ParseEntry(parts[0], permsReqd, names) == Some(aces[0]) && EachParsed(parts[1..], permsReqd, names, aces[1..]) {
      forall i | 0 <= i < |parts| ensures ParseEntry(parts[i], permsReqd, names) == Some(aces[i]) {
        if i > 0 {
          assert parts[1..][i - 1] == parts[i] && aces[1..][i - 1] == aces[i];
        }
      }
    }
  }

  lemma FirstPart(first: string, more: string, permsReqd: bool, names: Names)
    requires ',' !in first
    ensures ParseAll(first + "," + more, permsReqd, names)
         == match ParseEntry(first, permsReqd, names)
            case None => None
            case Some(ace) => After([ace], ParseAll(more, permsReqd, names))
  {
    hide ParseEntry, IndexOf, After;
    var s := first + [','] + more;
    assert first + "," + more == s;
    IndexOfFirst(first, ',', more);
    assert s[..|first|] == first && s[|first| + 1..] == more;
  }

  lemma LastPart(first: string, permsReqd: bool, names: Names)
    requires ',' !in first
    ensures ParseAll(first, permsReqd, names)
         == match ParseEntry(first, permsReqd, names) case None => None case Some(ace) => Some([ace])
  {
    hide ParseEntry, IndexOf, After;
    IndexOfFirst(first, ',', "");
    assert first[..|first|] == first;
  }

  /** Every text has such parts. */
  lemma {:induction false} CutAtCommas(s: string) returns (parts: seq<string>)
    ensures NoCommas(parts) && WithCommas(parts) == s
    decreases |s|
  {
    var i := FirstOf(s, ',');
    if i == |s| {
      parts := [s];
    } else {
      var rest := CutAtCommas(s[i + 1..]);
      parts := [s[..i]] + rest;
      assert parts[1..] == rest && parts[0] == s[..i];
      assert s == s[..i] + "," + s[i + 1..];
    }
  }
}
