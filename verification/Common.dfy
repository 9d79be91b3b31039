/** Datatypes and small list functions shared by the component models. */
module Common {

  datatype Option<+T> = None | Some(value: T)

  /** How far a stored fact may be trusted; `EvidenceReconciliation` is reconciliation_required. */
  datatype Evidence = Current | Stale | Incomplete | EvidenceReconciliation | Unavailable

  /** The pages of a paged read, one after the other. */
  function Concat<T>(pages: seq<seq<T>>): seq<T> {
    if pages == [] then [] else Concat(pages[..|pages| - 1]) + pages[|pages| - 1]
  }

  lemma {:induction false} ConcatPrepend<T>(page: seq<T>, pages: seq<seq<T>>)
    ensures Concat([page] + pages) == page + Concat(pages)
  {
    if pages == [] {
      assert [page] + pages == [page];
      assert [page][..0] == [];
    } else {
      var front := pages[..|pages| - 1];
      ConcatPrepend(page, front);
      assert ([page] + pages)[..|pages|] == [page] + front;
    }
  }
}
