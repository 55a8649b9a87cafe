/** Sequences put together from parts. */
module Lists {

  /** `part` is what `whole` holds from `lo` up to `hi`. */
  ghost predicate PartAt<T(!new)>(part: seq<T>, whole: seq<T>, lo: nat, hi: nat) {
    lo + |part| == hi <= |whole| && forall k :: 0 <= k < |part| ==> part[k] == whole[lo + k]
  }

  ghost predicate JoinedAt<T(!new)>(parts: seq<seq<T>>, whole: seq<T>, starts: seq<nat>) {
    && |starts| == |parts| + 1 && starts[0] == 0 && starts[|parts|] == |whole|
    && forall i :: 0 <= i < |parts| ==> PartAt(parts[i], whole, starts[i], starts[i + 1])
  }

  /** `whole` is the parts one after another, in their order: part `i` starts where part `i - 1` ends. */
  ghost predicate Joined<T(!new)>(parts: seq<seq<T>>, whole: seq<T>) {
    exists starts :: JoinedAt(parts, whole, starts)
  }

  lemma JoinedNone<T(!new)>()
    ensures Joined<T>([], [])
  {
    var none: seq<seq<T>> := [];
    assert JoinedAt(none, [], [0]);
  }

  lemma PartGrows<T(!new)>(part: seq<T>, whole: seq<T>, lo: nat, hi: nat, more: seq<T>)
    requires PartAt(part, whole, lo, hi)
    ensures PartAt(part, whole + more, lo, hi)
  {
  }

  /** One more part. */
  lemma JoinedMore<T(!new)>(parts: seq<seq<T>>, whole: seq<T>, part: seq<T>)
    requires Joined(parts, whole)
    ensures Joined(parts + [part], whole + part)
  {
    var starts: seq<nat> :| JoinedAt(parts, whole, starts);
    var all, more := parts + [part], whole + part;
    var ends: seq<nat> := starts + [|more|];
    forall i | 0 <= i < |all| ensures PartAt(all[i], more, ends[i], ends[i + 1]) {
      if i < |parts| {
        assert PartAt(parts[i], whole, starts[i], starts[i + 1]);
        PartGrows(parts[i], whole, starts[i], starts[i + 1], part);
      }
    }
    assert JoinedAt(all, more, ends);
  }
}
