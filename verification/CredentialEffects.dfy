/** What each exchange of a call with the server comes to, for the document and for the call. */
module CredentialEffects {
  import opened Common
  import opened Credentials
  import opened CredentialSafety

  /** The document with one reference changed as the caller asked. */
  predicate Changed(before: Document, after: Document, op: Op) {
    match op
    case Store(key, token) => after == map k | k in before.Keys + {key} :: if k == key then token else before[k]
    case Delete(key) => after == map k | k in before && k != key :: before[k]
  }

  lemma ApplyChanges(d: Document, op: Op)
    ensures Changed(d, Apply(d, op), op)
  {
  }

  /** Only the call's own row changes. */
  predicate OnlyCall(w: World, w': World, c: nat) {
    && |w'.calls| == |w.calls| && c < |w.calls|
    && (forall i :: 0 <= i < |w.calls| && i != c ==> w'.calls[i] == w.calls[i])
    && w'.calls[c].op == w.calls[c].op && w'.calls[c].began == w.calls[c].began
  }

  /** A read writes nothing.  One that fails ends the call in an error; one that finds nothing to
      delete ends it well; any other prepares the changed document for the version read. */
  lemma WhatAReadDoes(w: World, c: nat, ok: bool)
    requires c < |w.calls| && w.calls[c].phase.Ready?
    ensures var w' := Step(w, Got(c, ok));
      && OnlyCall(w, w', c) && w'.document == w.document && w'.version == w.version && w'.log == w.log
      && var op, next := w.calls[c].op, w'.calls[c].phase;
      && (!ok ==> next == Raised)
      && (ok && op.Delete? && op.key !in w.document ==> next == Returned)
      && (ok && !(op.Delete? && op.key !in w.document) ==>
            next.Fetched? && next.attempt == w.calls[c].phase.attempt && next.version == w.version
            && Changed(w.document, next.document, op))
  {
    ApplyChanges(w.document, w.calls[c].op);
  }

  /** A write is applied exactly when it arrives and its version still stands.  The call returns
      exactly when it is answered so; a conflict is retried until the third; and an exchange that
      is lost is retried only if its error says "cas", and fails the call otherwise. */
  lemma WhatAWriteDoes(w: World, c: nat, fate: Fate)
    requires c < |w.calls| && w.calls[c].phase.Fetched?
    ensures var w' := Step(w, Posted(c, fate));
      var p, next := w.calls[c].phase, w'.calls[c].phase;
      var applied := !fate.RequestLost? && p.version == w.version;
      var last := p.attempt >= 2;
      && OnlyCall(w, w', c)
      && (applied ==> w'.document == p.document && w'.version == w.version + 1
                      && w'.log == w.log + [Write(c, w.calls[c].op)])
      && (!applied ==> w'.document == w.document && w'.version == w.version && w'.log == w.log)
      && (fate.Answered? && applied ==> next == Returned)
      && (fate.Answered? && !applied ==> next == (if last then GaveUp else Ready(p.attempt + 1)))
      && (!fate.Answered? ==> next == (if fate.saysCas && !last then Ready(p.attempt + 1) else Raised))
  {
  }

  /** A call that has ended takes no further part. */
  lemma EndedCallsAreInert(w: World, c: nat, ok: bool, fate: Fate)
    requires c < |w.calls| && Ended(w.calls[c].phase)
    ensures Step(w, Got(c, ok)) == w && Step(w, Posted(c, fate)) == w
  {
  }
}
