/** The protocol's validators of messages and tags. Both also rewrite what they accept. */
module Protocol {
  import opened Types

  const MESSAGE_MAX := 240
  const ALLOWED_TAGS: seq<string> := ["phone", "pc", "mobile", "desktop", "desk"]

  // ----- messages -----

  /** The characters with the Unicode property White_Space. */
  predicate IsWhitespace(c: char) {
    var n := c as int;
    || 0x9 <= n <= 0xD || n == 0x20 || n == 0x85 || n == 0xA0 || n == 0x1680 || 0x2000 <= n <= 0x200A
    || n == 0x2028 || n == 0x2029 || n == 0x202F || n == 0x205F || n == 0x3000
  }

  /** The characters of the Unicode category Cc. */
  predicate IsControl(c: char) { c as int <= 0x1F || 0x7F <= c as int <= 0x9F }

  function TrimStart(s: string): string {
    if s != "" && IsWhitespace(s[0]) then TrimStart(s[1..]) else s
  }

  function TrimEnd(s: string): string {
    if s != "" && IsWhitespace(s[|s| - 1]) then TrimEnd(s[..|s| - 1]) else s
  }

  function Trim(s: string): string { TrimEnd(TrimStart(s)) }

  /** No white space at either end. */
  predicate Tight(s: string) { s != "" ==> !IsWhitespace(s[0]) && !IsWhitespace(s[|s| - 1]) }

  predicate Blank(s: string) { forall c :: c in s ==> IsWhitespace(c) }

  predicate Printable(s: string) { forall c :: c in s ==> !IsControl(c) || c == '\n' || c == '\t' }

  /** What is made of an optional message: refused, or trimmed. */
  function ValidMessage(message: Option<string>): Option<Option<string>> {
    if message.None? then Some(None)
    else
      var trimmed := Trim(message.value);
      if |trimmed| > MESSAGE_MAX || !Printable(trimmed) then None else Some(Some(trimmed))
  }

  lemma {:induction false} TrimStartCuts(s: string) returns (cut: string)
    ensures Blank(cut) && s == cut + TrimStart(s)
    ensures TrimStart(s) != "" ==> !IsWhitespace(TrimStart(s)[0])
  {
    if s == "" || !IsWhitespace(s[0]) {
      cut := "";
    } else {
      var more := TrimStartCuts(s[1..]);
      cut := [s[0]] + more;
    }
  }

  lemma {:induction false} TrimEndCuts(s: string) returns (cut: string)
    ensures Blank(cut) && s == TrimEnd(s) + cut
    ensures TrimEnd(s) != "" ==> !IsWhitespace(TrimEnd(s)[|TrimEnd(s)| - 1])
  {
    if s == "" || !IsWhitespace(s[|s| - 1]) {
      cut := "";
    } else {
      var more := TrimEndCuts(s[..|s| - 1]);
      cut := more + [s[|s| - 1]];
      assert s == s[..|s| - 1] + [s[|s| - 1]];
    }
  }

  /** Trimming cuts white space off both ends, and nothing else; it changes nothing exactly if there is none. */
  lemma TrimIsTight(s: string) returns (before: string, behind: string)
    ensures Blank(before) && Blank(behind) && s == before + Trim(s) + behind
    ensures Tight(Trim(s)) && (Trim(s) == s <==> Tight(s))
  {
    before := TrimStartCuts(s);
    behind := TrimEndCuts(TrimStart(s));
    hide TrimStart, TrimEnd;
    assert Trim(s) != "" ==> Trim(s)[0] == TrimStart(s)[0];
    assert before != "" ==> before[0] in before && before[0] == s[0];
    assert behind != "" ==> behind[|behind| - 1] in behind && behind[|behind| - 1] == s[|s| - 1];
  }

  /** What lies between white space and has none at its own ends. */
  ghost predicate CoreOf(s: string, core: string) {
    Tight(core) && exists before, behind :: Blank(before) && Blank(behind) && s == before + core + behind
  }

  lemma {:induction false} TrimStartSkips(before: string, rest: string)
    requires Blank(before) && (rest != "" ==> !IsWhitespace(rest[0]))
    ensures TrimStart(before + rest) == rest
  {
    if before == "" {
      assert before + rest == rest;
    } else {
      assert (before + rest)[1..] == before[1..] + rest;
      TrimStartSkips(before[1..], rest);
    }
  }

  lemma {:induction false} TrimEndSkips(rest: string, behind: string)
    requires Blank(behind) && (rest != "" ==> !IsWhitespace(rest[|rest| - 1]))
    ensures TrimEnd(rest + behind) == rest
  {
    if behind == "" {
      assert rest + behind == rest;
    } else {
      var s := rest + behind;
      assert s[..|s| - 1] == rest + behind[..|behind| - 1] && s[|s| - 1] in behind;
      TrimEndSkips(rest, behind[..|behind| - 1]);
    }
  }

  /** Trimming finds the one core a string has. */
  lemma TrimIsUnique(s: string, core: string)
    ensures CoreOf(s, core) <==> core == Trim(s)
  {
    var _, _ := TrimIsTight(s);
    if CoreOf(s, core) {
      var before, behind :| Blank(before) && Blank(behind) && s == before + core + behind;
      hide TrimStart, TrimEnd;
      if core == "" {
        assert s == before + behind + "";
        TrimStartSkips(before + behind, "");
        TrimEndSkips("", "");
      } else {
        assert s == before + (core + behind);
        TrimStartSkips(before, core + behind);
        TrimEndSkips(core, behind);
      }
    }
  }

  // ----- tags -----

  /** The order of strings by characters, which is that of their UTF-8 bytes. */
  predicate Precedes(a: string, b: string) {
    b != "" && (a == "" || a[0] < b[0] || (a[0] == b[0] && Precedes(a[1..], b[1..])))
  }

  ghost predicate Ascending(tags: seq<string>) {
    forall i, j :: 0 <= i < j < |tags| ==> Precedes(tags[i], tags[j])
  }

  /** Insertion into an ordered set of strings. */
  function Insert(tags: seq<string>, tag: string): seq<string> {
    if tags == [] then [tag]
    else if tag == tags[0] then tags
    else if Precedes(tag, tags[0]) then [tag] + tags
    else [tags[0]] + Insert(tags[1..], tag)
  }

  /** The tags in order, each once. */
  function SortedTags(tags: seq<string>): seq<string> {
    if tags == [] then [] else Insert(SortedTags(tags[..|tags| - 1]), tags[|tags| - 1])
  }

  /** What is made of a list of tags: refused, or sorted without repetition. */
  function ValidTags(tags: seq<string>): Option<seq<string>> {
    if exists tag :: tag in tags && tag !in ALLOWED_TAGS then None else Some(SortedTags(tags))
  }

  lemma {:induction false} Irreflexive(a: string)
    ensures !Precedes(a, a)
  {
    if a == "" {
    } else {
      Irreflexive(a[1..]);
    }
  }

  lemma {:induction false} Transitive(a: string, b: string, c: string)
    requires Precedes(a, b) && Precedes(b, c)
    ensures Precedes(a, c)
  {
    if a != "" && a[0] == b[0] && b[0] == c[0] {
      Transitive(a[1..], b[1..], c[1..]);
    }
  }

  lemma {:induction false} Total(a: string, b: string)
    ensures a == b || Precedes(a, b) || Precedes(b, a)
  {
    if a != "" && b != "" && a[0] == b[0] {
      Total(a[1..], b[1..]);
      assert a == [a[0]] + a[1..] && b == [b[0]] + b[1..];
    }
  }

  lemma AscendingRest(tags: seq<string>)
    requires tags != []
    ensures Ascending(tags) ==> Ascending(tags[1..]) && Ascending(tags[..|tags| - 1]) && forall t :: t in tags[1..] ==> Precedes(tags[0], t)
  {
  }

  lemma AscendingCons(tag: string, tags: seq<string>)
    requires Ascending(tags) && forall t :: t in tags ==> Precedes(tag, t)
    ensures Ascending([tag] + tags)
  {
    var all := [tag] + tags;
    forall i, j | 0 <= i < j < |all| ensures Precedes(all[i], all[j]) {
      assert all[j] == tags[j - 1];
    }
  }

  lemma {:induction false} InsertKeepsOrder(tags: seq<string>, tag: string)
    requires Ascending(tags)
    ensures Ascending(Insert(tags, tag)) && forall t :: t in Insert(tags, tag) <==> t in tags || t == tag
  {
    if tags == [] {
    } else if tag == tags[0] {
    } else if Precedes(tag, tags[0]) {
      AscendingRest(tags);
      forall t | t in tags ensures Precedes(tag, t) {
        if t != tags[0] {
          assert t in tags[1..];
          Transitive(tag, tags[0], t);
        }
      }
      AscendingCons(tag, tags);
    } else {
      AscendingRest(tags);
      Total(tag, tags[0]);
      InsertKeepsOrder(tags[1..], tag);
      AscendingCons(tags[0], Insert(tags[1..], tag));
      assert tags == [tags[0]] + tags[1..];
    }
  }

  lemma {:induction false} InsertLast(tags: seq<string>, tag: string)
    requires forall t :: t in tags ==> Precedes(t, tag)
    ensures Insert(tags, tag) == tags + [tag]
  {
    if tags == [] {
    } else {
      assert tags[0] in tags;
      Irreflexive(tag);
      if Precedes(tag, tags[0]) {
        Transitive(tags[0], tag, tags[0]);
        Irreflexive(tags[0]);
      }
      InsertLast(tags[1..], tag);
      assert tags == [tags[0]] + tags[1..];
    }
  }

  /** The result is in strictly ascending order with the same members; a list already so is left as it is. */
  lemma {:induction false} SortedTagsAscend(tags: seq<string>)
    ensures Ascending(SortedTags(tags)) && forall t :: t in SortedTags(tags) <==> t in tags
    ensures SortedTags(tags) == tags <==> Ascending(tags)
  {
    if tags == [] {
    } else {
      var rest, last := tags[..|tags| - 1], tags[|tags| - 1];
      SortedTagsAscend(rest);
      InsertKeepsOrder(SortedTags(rest), last);
      assert tags == rest + [last];
      if Ascending(tags) {
        AscendingRest(tags);
        InsertLast(rest, last);
      }
    }
  }

  // ----- the validators -----

  method ValidateMessage(message: Option<string>) returns (r: Option<Option<string>>)
    ensures r == ValidMessage(message)
    ensures message.None? ==> r == Some(None)
    ensures message.Some? ==> forall core :: CoreOf(message.value, core) ==>
                                r == if |core| <= 240 && Printable(core) then Some(Some(core)) else None
  {
    if message.None? {
      return Some(None);
    }
    forall core ensures CoreOf(message.value, core) <==> core == Trim(message.value) {
      TrimIsUnique(message.value, core);
    }
    hide CoreOf;
    var trimmed := Trim(message.value);
    if |trimmed| > MESSAGE_MAX {
      return None;
    }
    if exists c :: c in trimmed && IsControl(c) && c != '\n' && c != '\t' {
      return None;
    }
    return Some(Some(trimmed));
  }

  /** The tags are collected into an ordered set, one at a time. */
  method ValidateTags(values: seq<string>) returns (r: Option<seq<string>>)
    ensures r == ValidTags(values)
    ensures r.None? <==> exists tag :: tag in values && tag !in ["phone", "pc", "mobile", "desktop", "desk"]
    ensures r.Some? ==> Ascending(r.value) && forall tag :: tag in r.value <==> tag in values
  {
    SortedTagsAscend(values);
    var unique: seq<string> := [];
    for i := 0 to |values|
      invariant unique == SortedTags(values[..i])
      invariant forall k :: 0 <= k < i ==> values[k] in ALLOWED_TAGS
    {
      if values[i] !in ALLOWED_TAGS {
        assert values[i] in values;
        return None;
      }
      assert values[..i + 1][..i] == values[..i];
      unique := Insert(unique, values[i]);
    }
    assert values[..|values|] == values;
    return Some(unique);
  }
}
