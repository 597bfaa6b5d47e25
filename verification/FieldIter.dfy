/** The cyclic field iterator (pb_common.c): its position, the member address it has worked out so far,
    and how many required fields it has passed. */
module FieldIter {
  import opened Bytes
  import opened Fields

  // ---- Reference: what the iterator should know, as a function of its position alone ----

  /** True iff entry i lies in the same union as the entry before it. */
  predicate InUnion(es: seq<Entry>, i: nat)
    requires 0 < i < |es|
  {
    es[i - 1].rule.Oneof? && es[i].rule.Oneof? && es[i].dataOffset == PB_SIZE_MAX
  }

  /** Bytes that the member of an entry takes in the structure. */
  function MemberSize(e: Entry, pointerSize: nat): nat
  {
    if e.storage.Static? && e.rule.Repeated? then e.dataSize * e.arraySize
    else if e.storage.Pointer? then pointerSize
    else e.dataSize
  }

  /** Offset of member i: the offsets and sizes of the entries up to it, unions not advanced. */
  function Offset(es: seq<Entry>, i: nat, pointerSize: nat): nat
    requires i < |es|
  {
    if i == 0 then es[0].dataOffset
    else if InUnion(es, i) then Offset(es, i - 1, pointerSize)
    else Offset(es, i - 1, pointerSize) + MemberSize(es[i - 1], pointerSize) + es[i].dataOffset
  }

  /** The entry whose size offset holds for entry i: in a union that of its first member. */
  function Anchor(es: seq<Entry>, i: nat): (a: nat)
    requires i < |es|
    ensures a <= i
  {
    if i > 0 && InUnion(es, i) then Anchor(es, i - 1) else i
  }

  /** Where the fields of a union have the same offset from their size to their data, as they do in one struct, it
      does not matter that the walk keeps the size pointer of the first. */
  lemma {:induction false} AnchorIrrelevant(es: seq<Entry>, i: nat)
    requires i < |es|
    requires forall j {:trigger InUnion(es, j)} :: 0 < j < |es| && InUnion(es, j) ==>
               es[j].sizeOffset == es[j - 1].sizeOffset
    ensures es[Anchor(es, i)].sizeOffset == es[i].sizeOffset
  {
    if i > 0 && InUnion(es, i) {
      AnchorIrrelevant(es, i - 1);
    }
  }

  /** How many of the first i entries count as required. */
  function RequiredBefore(es: seq<Entry>, i: nat): (n: nat)
    requires i <= |es|
    ensures n <= i
  {
    if i == 0 then 0
    else RequiredBefore(es, i - 1) + if es[i - 1].rule.Required? then 1 else 0
  }

  predicate Matches(e: Entry, tag: nat)
  {
    e.tag == tag && !e.extension
  }

  /** The first of the n entries from pos on, cyclically, that matches the tag. */
  function FindFrom(es: seq<Entry>, pos: nat, tag: nat, n: nat): (r: Option<nat>)
    requires pos < |es|
    ensures r.Some? ==> r.value < |es| && Matches(es[r.value], tag)
    decreases n
  {
    if n == 0 then None
    else if Matches(es[pos], tag) then Some(pos)
    else FindFrom(es, if pos + 1 == |es| then 0 else pos + 1, tag, n - 1)
  }

  /** A search over all positions fails only if no entry matches, wherever it starts. */
  lemma {:induction false} FindFromComplete(es: seq<Entry>, pos: nat, tag: nat, n: nat, i: nat)
    requires pos < |es| && n <= |es|
    requires FindFrom(es, pos, tag, n).None?
    requires i < |es| && Matches(es[i], tag)
    ensures !(pos <= i < pos + n) && !(pos <= i + |es| < pos + n)
    decreases n
  {
    if n > 0 {
      FindFromComplete(es, if pos + 1 == |es| then 0 else pos + 1, tag, n - 1, i);
    }
  }

  predicate DistinctTags(es: seq<Entry>)
  {
    forall i, j :: 0 <= i < j < |es| ==> es[i].tag != es[j].tag
  }

  /** With distinct tags the search finds the one entry with the tag, wherever it starts. */
  lemma {:induction false} FindFromAnywhere(es: seq<Entry>, pos: nat, i: nat)
    requires pos < |es| && i < |es| && DistinctTags(es) && !es[i].extension
    ensures FindFrom(es, pos, es[i].tag, |es|) == Some(i)
  {
    var r := FindFrom(es, pos, es[i].tag, |es|);
    if r.None? {
      FindFromComplete(es, pos, es[i].tag, |es|, i);
    }
  }

  /** Entries laid out by the PB_DATAOFFSET macros: at[i] is the absolute offset of member i. */
  ghost predicate LaidOut(es: seq<Entry>, at: seq<nat>, pointerSize: nat)
  {
    && |at| == |es|
    && (es != [] ==> es[0].dataOffset == at[0])
    && forall i {:trigger at[i]} :: 0 < i < |es| ==>
         if InUnion(es, i) then at[i] == at[i - 1]
         else at[i] == at[i - 1] + MemberSize(es[i - 1], pointerSize) + es[i].dataOffset
  }

  /** The increments that the macros store add up to the real member offsets. */
  lemma {:induction false} OffsetIsLayout(es: seq<Entry>, at: seq<nat>, pointerSize: nat, i: nat)
    requires LaidOut(es, at, pointerSize) && i < |es|
    ensures Offset(es, i, pointerSize) == at[i]
  {
    if i > 0 {
      OffsetIsLayout(es, at, pointerSize, i - 1);
      assert at[i - 1] == Offset(es, i - 1, pointerSize);
      assert at[i] == at[i];
    }
  }

  // ---- The iterator ----

  class Iter {
    const start: seq<Entry>
    const destStruct: int
    const pointerSize: nat
    var pos: nat
    var requiredFieldIndex: nat
    var pData: int
    var pSize: int

    /** However it got here, the iterator knows what its position implies, and nothing else.
        In an empty list it stands on the terminator. */
    ghost predicate Valid()
      reads this
    {
      && (if start == [] then pos == 0 else pos < |start|)
      && requiredFieldIndex == RequiredBefore(start, pos)
      && (start != [] ==>
            && pData == destStruct + Offset(start, pos, pointerSize)
            && pSize == pData + start[Anchor(start, pos)].sizeOffset)
    }

    constructor (fields: seq<Entry>, dest: int, ptrSize: nat)
      ensures Valid() && start == fields && destStruct == dest && pointerSize == ptrSize && pos == 0
    {
      start, destStruct, pointerSize := fields, dest, ptrSize;
      new;
      Begin();
    }

    method Begin()
      modifies this
      ensures Valid() && pos == 0
    {
      pos := 0;
      requiredFieldIndex := 0;
      pData, pSize := destStruct, destStruct;
      if start != [] {
        pData := destStruct + start[0].dataOffset;
        pSize := pData + start[0].sizeOffset;
      }
    }

    /** Advances, or wraps to the first field and says so. */
    method Next() returns (more: bool)
      requires Valid()
      modifies this
      ensures Valid()
      ensures more <==> old(pos) + 1 < |start|
      ensures pos == if more then old(pos) + 1 else 0
    {
      if start == [] {
        return false;
      }
      var prev := start[pos];
      pos := pos + 1;
      if pos == |start| {
        Begin();
        return false;
      }
      var prevSize := prev.dataSize;
      if prev.rule.Oneof? && start[pos].rule.Oneof? && start[pos].dataOffset == PB_SIZE_MAX {
        return true;  // inside a union the pointers stay where they are
      } else if prev.storage.Static? && prev.rule.Repeated? {
        prevSize := prevSize * prev.arraySize;
      } else if prev.storage.Pointer? {
        prevSize := pointerSize;
      }
      if prev.rule.Required? {
        requiredFieldIndex := requiredFieldIndex + 1;
      }
      pData := pData + prevSize + start[pos].dataOffset;
      pSize := pData + start[pos].sizeOffset;
      return true;
    }

    /** Searches from the current position, once around. On an empty list it looks at the terminator. */
    method Find(tag: nat) returns (found: bool)
      requires Valid()
      modifies this
      ensures Valid()
      ensures start == [] ==> found == (tag == 0)
      ensures start != [] ==>
                match FindFrom(start, old(pos), tag, |start|)
                case None => !found && pos == old(pos)
                case Some(i) => found && pos == i
    {
      if start == [] {
        return tag == 0;
      }
      var first := pos;
      ghost var left := |start|;
      while true
        invariant Valid() && 0 < left <= |start|
        invariant FindFrom(start, first, tag, |start|) == FindFrom(start, pos, tag, left)
        invariant pos == if first + |start| - left < |start| then first + |start| - left else first - left
        decreases left
      {
        if Matches(start[pos], tag) {
          return true;
        }
        var more := Next();
        if pos == first {
          return false;
        }
        left := left - 1;
      }
    }
  }
}
