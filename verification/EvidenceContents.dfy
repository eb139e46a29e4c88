/** What an evidence block says: every value is in it and can be read back, each under its own key. */
module EvidenceContents {
  import opened Vocabulary
  import opened Sorting
  import opened Prompts
  import opened Evidence

  // ---- joining ----

  /** Joining puts the separator between any two neighbours and adds nothing else. */
  lemma {:induction false} JoinSplits(separator: string, a: seq<string>, b: seq<string>)
    requires a != [] && b != []
    ensures Join(separator, a + b) == Join(separator, a) + separator + Join(separator, b)
  {
    if |a| == 1 {
      assert (a + b)[1..] == b;
    } else {
      JoinSplits(separator, a[1..], b);
      assert (a + b)[1..] == a[1..] + b;
      assert a[0] + separator + (Join(separator, a[1..]) + separator + Join(separator, b))
          == (a[0] + separator + Join(separator, a[1..])) + separator + Join(separator, b);
    }
  }

  lemma JoinOfOne(separator: string, part: string)
    ensures Join(separator, [part]) == part && Join(separator, []) == ""
  {
  }

  // ---- order ----

  predicate MemberLeq(a: Member, b: Member) {
    StringLeq(a.key, b.key)
  }

  function PairOf(m: Member): (string, string) {
    (m.key, RenderScalar(m.value))
  }

  lemma {:induction false} InsertMapped(m: Member, ms: seq<Member>)
    ensures Insert(KeyLeq, PairOf(m), Map(PairOf, ms)) == Map(PairOf, Insert(MemberLeq, m, ms))
  {
    if ms != [] {
      assert Map(PairOf, ms) == [PairOf(ms[0])] + Map(PairOf, ms[1..]);
      if MemberLeq(m, ms[0]) {
        assert Map(PairOf, [m] + ms) == [PairOf(m)] + Map(PairOf, ms);
      } else {
        InsertMapped(m, ms[1..]);
        assert Map(PairOf, ms)[1..] == Map(PairOf, ms[1..]);
        assert Map(PairOf, [ms[0]] + Insert(MemberLeq, m, ms[1..])) == [PairOf(ms[0])] + Map(PairOf, Insert(MemberLeq, m, ms[1..]));
      }
    }
  }

  /** Sorting what the members render to is rendering the sorted members. */
  lemma {:induction false} SortMapped(ms: seq<Member>)
    ensures Sort(KeyLeq, RenderEntries(ms)) == Map(PairOf, Sort(MemberLeq, ms))
  {
    if ms != [] {
      SortMapped(ms[1..]);
      InsertMapped(ms[0], Sort(MemberLeq, ms[1..]));
    }
  }

  ghost predicate InKeyOrder(ordered: seq<Member>, entries: seq<Member>) {
    multiset(ordered) == multiset(entries) && forall i, j :: 0 <= i < j < |ordered| ==> StringLeq(ordered[i].key, ordered[j].key)
  }

  lemma KeyOrder(entries: seq<Member>)
    ensures InKeyOrder(Sort(MemberLeq, entries), entries)
  {
    forall a: Member, b: Member ensures MemberLeq(a, b) || MemberLeq(b, a) {
      StringLeqTotal(a.key, b.key);
    }
    forall a: Member, b: Member, c: Member | MemberLeq(a, b) && MemberLeq(b, c) ensures MemberLeq(a, c) {
      StringLeqTransitive(a.key, b.key, c.key);
    }
    SortPermutes(MemberLeq, entries);
    SortSorted(MemberLeq, entries);
  }

  // ---- values ----

  lemma {:induction false} ItemsRendered(items: seq<Json>)
    ensures |RenderItems(items)| == |items| && forall i :: 0 <= i < |items| ==> RenderItems(items)[i] == RenderScalar(items[i])
  {
    if items != [] {
      ItemsRendered(items[1..]);
    }
  }

  lemma LabelledMember(indent: string, mark: string, ordered: seq<Member>, i: nat)
    requires i < |ordered|
    ensures Labelled(indent, mark, Map(PairOf, ordered))[i] == indent + ordered[i].key + mark + RenderScalar(ordered[i].value)
  {
    assert Map(PairOf, ordered)[i] == PairOf(ordered[i]);
  }

  lemma MembersInOrder(indent: string, mark: string, entries: seq<Member>) returns (parts: seq<string>, ordered: seq<Member>)
    ensures parts == Labelled(indent, mark, Sort(KeyLeq, RenderEntries(entries)))
    ensures InKeyOrder(ordered, entries) && |parts| == |ordered|
    ensures forall i :: 0 <= i < |parts| ==> parts[i] == indent + ordered[i].key + mark + RenderScalar(ordered[i].value)
  {
    SortMapped(entries);
    KeyOrder(entries);
    ordered := Sort(MemberLeq, entries);
    parts := Labelled(indent, mark, Map(PairOf, ordered));
    forall i | 0 <= i < |parts| ensures parts[i] == indent + ordered[i].key + mark + RenderScalar(ordered[i].value) {
      LabelledMember(indent, mark, ordered, i);
    }
  }

  /** Text and numbers read back from their rendering, which holds no markup; null and the booleans have their spellings. */
  lemma ScalarSays(v: Json)
    ensures v.Null? ==> RenderScalar(v) == "null"
    ensures v.Bool? ==> RenderScalar(v) == if v.b then "true" else "false"
    ensures v.Text? ==> Decode(RenderScalar(v)) == v.s && '<' !in RenderScalar(v) && '>' !in RenderScalar(v)
    ensures v.Number? ==> Decode(RenderScalar(v)) == v.text && '<' !in RenderScalar(v) && '>' !in RenderScalar(v)
  {
    match v
    case Text(s) =>
      DecodeUndoesEscaping(s);
      EscapedHoldsNoMarkup(s);
    case Number(text) =>
      DecodeUndoesEscaping(text);
      EscapedHoldsNoMarkup(text);
    case _ =>
  }

  /** A list is all its items, in order. */
  lemma ListSays(items: seq<Json>) returns (parts: seq<string>)
    ensures RenderScalar(List(items)) == Join(", ", parts) && |parts| == |items|
    ensures forall i :: 0 <= i < |parts| ==> parts[i] == RenderScalar(items[i])
  {
    ItemsRendered(items);
    parts := RenderItems(items);
  }

  /** An object inside a value is all its members, in key order, each under its own key. */
  lemma ObjectSays(entries: seq<Member>) returns (parts: seq<string>, ordered: seq<Member>)
    ensures RenderScalar(Object(entries)) == Join(", ", parts) && InKeyOrder(ordered, entries) && |parts| == |ordered|
    ensures forall i :: 0 <= i < |parts| ==> parts[i] == ordered[i].key + "=" + RenderScalar(ordered[i].value)
  {
    parts, ordered := MembersInOrder("", "=", entries);
    forall i | 0 <= i < |parts| ensures parts[i] == ordered[i].key + "=" + RenderScalar(ordered[i].value) {
      assert "" + ordered[i].key == ordered[i].key;
    }
  }

  // ---- blocks ----

  /** The content has one line for each entry, in key order: its own key, a colon and its own value. */
  lemma ContentSays(entries: seq<Member>) returns (lines: seq<string>, ordered: seq<Member>)
    ensures RenderContent(entries) == Join("\n", lines) && InKeyOrder(ordered, entries) && |lines| == |ordered|
    ensures forall i :: 0 <= i < |lines| ==> lines[i] == "  " + ordered[i].key + ": " + RenderScalar(ordered[i].value)
  {
    lines, ordered := MembersInOrder("  ", ": ", entries);
  }

  const OPENING := "<evidence id=\""
  const BETWEEN := "\" source=\""
  const TRUST := "\" trust=\"untrusted\">\n"
  const CLOSING := "\n</evidence>"

  lemma Framed(head: string, body: string)
    ensures "<evidence id=\"" + (head + body + "\n") + "</evidence>" == OPENING + head + body + CLOSING
  {
    assert CLOSING == "\n" + "</evidence>";
  }

  lemma AttributesRead(item: Item) returns (ref: string, source: string)
    ensures Decode(ref) == item.ref && Decode(source) == item.source && '"' !in ref && '"' !in source
    ensures Attributes(item) == ref + BETWEEN + source + TRUST
  {
    ref, source := EscapeAttribute(item.ref), EscapeAttribute(item.source);
    DecodeUndoesEscaping(item.ref);
    DecodeUndoesEscaping(item.source);
    EscapedHoldsNoMarkup(item.ref);
    EscapedHoldsNoMarkup(item.source);
  }

  /** A block is its opening tag, its content and its closing tag. The two attribute values decode to the item's reference
      and source and hold no quote, and it always says that its content is untrusted. */
  lemma BlockSays(item: Item) returns (ref: string, source: string)
    ensures Decode(ref) == item.ref && Decode(source) == item.source && '"' !in ref && '"' !in source
    ensures Block(item) == OPENING + (ref + BETWEEN + source + TRUST) + RenderContent(item.content) + CLOSING
  {
    ref, source := AttributesRead(item);
    Framed(Attributes(item), RenderContent(item.content));
  }

  /** A bundle is its items' blocks, one after another in the order given. */
  lemma BundleSays(items: seq<Item>) returns (blocks: seq<string>)
    ensures Bundle(items) == Join("\n", blocks) && |blocks| == |items|
    ensures forall i :: 0 <= i < |items| ==> blocks[i] == Block(items[i])
  {
    blocks := Blocks(items);
  }
}
