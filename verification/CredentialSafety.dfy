/** No lost update: what every interleaving of concurrent stores and deletes keeps. */
module CredentialSafety {
  import opened Common
  import opened Credentials

  /** The sequential application of the writes. */
  function Replay(log: seq<Write>): Document {
    if log == [] then map[] else Apply(Replay(log[..|log| - 1]), log[|log| - 1].op)
  }

  function WritesBy(log: seq<Write>, c: nat): nat {
    if log == [] then 0
    else WritesBy(log[..|log| - 1], c) + (if log[|log| - 1].call == c then 1 else 0)
  }

  lemma LogGrows(log: seq<Write>, x: Write, c: nat)
    ensures Replay(log + [x]) == Apply(Replay(log), x.op)
    ensures WritesBy(log + [x], c) == WritesBy(log, c) + (if x.call == c then 1 else 0)
  {
    assert (log + [x])[..|log|] == log;
  }

  /* ---------- the invariant ---------- */

  predicate ServerOk(w: World) {
    && w.document == Replay(w.log)
    && w.version == |w.log|
    && (forall k :: 0 <= k < |w.log| ==>
          && w.log[k].call < |w.calls|
          && w.calls[w.log[k].call].op == w.log[k].op
          && w.calls[w.log[k].call].began <= k)
  }

  /** Each conflict and each unanswered write of a call stands for a version it saw pass. */
  predicate CallOk(w: World, c: nat)
    requires c < |w.calls|
  {
    var x := w.calls[c];
    && x.began + x.conflicts + x.lost <= w.version
    && match x.phase
       case Ready(a) => a < ATTEMPTS && x.lost <= x.noise && x.conflicts + x.noise == a && WritesBy(w.log, c) == x.lost
       case Fetched(a, d, v) =>
         && a < ATTEMPTS && x.lost <= x.noise && x.conflicts + x.noise == a && WritesBy(w.log, c) == x.lost
         && x.began + x.conflicts + x.lost <= v <= |w.log|
         && d == Apply(Replay(w.log[..v]), x.op)
       case Returned => WritesBy(w.log, c) == x.lost + 1 || (x.op.Delete? && WritesBy(w.log, c) == x.lost)
       case GaveUp => x.lost <= x.noise && x.conflicts + x.noise == ATTEMPTS && WritesBy(w.log, c) == x.lost
       case Raised => WritesBy(w.log, c) == x.lost
  }

  predicate Inv(w: World) {
    ServerOk(w) && forall c :: 0 <= c < |w.calls| ==> CallOk(w, c)
  }

  lemma {:induction false} StrangerWroteNothing(log: seq<Write>, c: nat)
    requires forall k :: 0 <= k < |log| ==> log[k].call != c
    ensures WritesBy(log, c) == 0
  {
    if log != [] { StrangerWroteNothing(log[..|log| - 1], c); }
  }

  /** Another call's step leaves this call's facts alone. */
  lemma OtherCallOk(a: World, b: World, c: nat)
    requires c < |a.calls| && c < |b.calls| && a.calls[c] == b.calls[c] && CallOk(a, c)
    requires a.log <= b.log && a.version == |a.log| && b.version == |b.log|
    requires WritesBy(b.log, c) == WritesBy(a.log, c)
    ensures CallOk(b, c)
  {
    if b.calls[c].phase.Fetched? {
      assert b.log[..b.calls[c].phase.version] == a.log[..b.calls[c].phase.version];
    }
  }

  lemma FetchInv(w: World, c: nat, ok: bool)
    requires Inv(w)
    ensures Inv(Fetch(w, c, ok))
  {
    var w' := Fetch(w, c, ok);
    if w' != w {
      assert w.log[..|w.log|] == w.log;
      forall i | 0 <= i < |w'.calls| ensures CallOk(w', i) {
        assert CallOk(w, i);
        if i != c { OtherCallOk(w, w', i); }
      }
    }
  }

  lemma PutLog(w: World, c: nat, fate: Fate, i: nat)
    requires Inv(w) && c < |w.calls| && w.calls[c].phase.Fetched?
    ensures var w' := Put(w, c, fate);
      && w.log <= w'.log && |w'.log| == w'.version && w'.document == Replay(w'.log)
      && WritesBy(w'.log, i) == WritesBy(w.log, i) + (if i == c then |w'.log| - |w.log| else 0)
  {
    assert CallOk(w, c);
    assert w.log[..|w.log|] == w.log;
    LogGrows(w.log, Write(c, w.calls[c].op), i);
  }

  lemma PutOwnCall(w: World, c: nat, fate: Fate)
    requires Inv(w) && c < |w.calls| && w.calls[c].phase.Fetched?
    ensures CallOk(Put(w, c, fate), c)
  {
    assert CallOk(w, c);
    PutLog(w, c, fate, c);
  }

  lemma PutFrame(w: World, c: nat, fate: Fate)
    requires c < |w.calls|
    ensures var w' := Put(w, c, fate);
      && |w'.calls| == |w.calls|
      && (forall i :: 0 <= i < |w.calls| ==> w'.calls[i].op == w.calls[i].op && w'.calls[i].began == w.calls[i].began)
      && (w'.log == w.log || w'.log == w.log + [Write(c, w.calls[c].op)])
  {
  }

  lemma PutServer(w: World, c: nat, fate: Fate)
    requires Inv(w) && c < |w.calls| && w.calls[c].phase.Fetched?
    ensures ServerOk(Put(w, c, fate))
  {
    PutLog(w, c, fate, c);
    PutFrame(w, c, fate);
    assert w.calls[c].began <= |w.log| by { assert CallOk(w, c); }
    LogStaysOk(w, Put(w, c, fate), c);
  }

  lemma LogStaysOk(a: World, b: World, c: nat)
    requires ServerOk(a) && c < |a.calls| && a.calls[c].began <= |a.log|
    requires b.document == Replay(b.log) && b.version == |b.log|
    requires |b.calls| == |a.calls|
    requires forall i :: 0 <= i < |a.calls| ==> b.calls[i].op == a.calls[i].op && b.calls[i].began == a.calls[i].began
    requires b.log == a.log || b.log == a.log + [Write(c, a.calls[c].op)]
    ensures ServerOk(b)
  {
  }

  lemma PutInv(w: World, c: nat, fate: Fate)
    requires Inv(w)
    ensures Inv(Put(w, c, fate))
  {
    var w' := Put(w, c, fate);
    if c < |w.calls| && w.calls[c].phase.Fetched? {
      forall i | 0 <= i < |w'.calls| ensures CallOk(w', i) {
        PutLog(w, c, fate, i);
        assert CallOk(w, i);
        if i == c { PutOwnCall(w, c, fate); } else { OtherCallOk(w, w', i); }
      }
      PutServer(w, c, fate);
    }
  }

  lemma StepInv(w: World, e: Event)
    requires Inv(w)
    ensures Inv(Step(w, e))
  {
    match e
    case Began(op) =>
      var w' := Step(w, e);
      StrangerWroteNothing(w.log, |w.calls|);
      forall i | 0 <= i < |w'.calls| ensures CallOk(w', i) {
        if i < |w.calls| {
          assert CallOk(w, i);
          OtherCallOk(w, w', i);
        }
      }
    case Got(c, ok) => FetchInv(w, c, ok);
    case Posted(c, fate) => PutInv(w, c, fate);
  }

  lemma {:induction false} RunInv(w: World, es: seq<Event>)
    requires Inv(w)
    ensures Inv(Run(w, es))
    decreases |es|
  {
    if es != [] {
      StepInv(w, es[0]);
      RunInv(Step(w, es[0]), es[1..]);
    }
  }

  /* ---------- main results over every interleaving ---------- */

  /** The document is the sequential application, in version order, of exactly the writes the
      server accepted, each of them some call's own operation; a call that ended in an error
      wrote just its unanswered writes, and one that returned wrote once more (or, deleting an
      absent reference, not at all). */
  lemma NoLostUpdate(es: seq<Event>)
    ensures var w := Run(Initial, es);
      && w.document == Replay(w.log)
      && w.version == |w.log|
      && (forall k :: 0 <= k < |w.log| ==> w.log[k].call < |w.calls| && w.log[k].op == w.calls[w.log[k].call].op)
      && (forall c :: 0 <= c < |w.calls| ==>
            && (!w.calls[c].phase.Returned? ==> WritesBy(w.log, c) == w.calls[c].lost)
            && (w.calls[c].phase.Returned? && w.calls[c].op.Store? ==> WritesBy(w.log, c) == w.calls[c].lost + 1))
  {
    RunInv(Initial, es);
    var w := Run(Initial, es);
    forall c | 0 <= c < |w.calls|
      ensures !w.calls[c].phase.Returned? ==> WritesBy(w.log, c) == w.calls[c].lost
      ensures w.calls[c].phase.Returned? && w.calls[c].op.Store? ==> WritesBy(w.log, c) == w.calls[c].lost + 1
    {
      assert CallOk(w, c);
    }
  }

  /** The last accepted operation on a reference. */
  function LastOn(log: seq<Write>, key: Ref): Option<Op> {
    if log == [] then None
    else if log[|log| - 1].op.key == key then Some(log[|log| - 1].op)
    else LastOn(log[..|log| - 1], key)
  }

  lemma {:induction false} ReplayAt(log: seq<Write>, key: Ref)
    ensures key in Replay(log) <==> LastOn(log, key).Some? && LastOn(log, key).value.Store?
    ensures key in Replay(log) ==> Replay(log)[key] == LastOn(log, key).value.token
  {
    if log != [] { ReplayAt(log[..|log| - 1], key); }
  }

  /** Reference by reference: the document holds the token of the last accepted operation if
      that was a store, and nothing if it was a delete; writes to other references, made from
      copies of the whole document, never disturb it. */
  lemma EachReferenceKeepsItsLastWrite(es: seq<Event>, key: Ref)
    ensures var w := Run(Initial, es);
      && (key in w.document <==> LastOn(w.log, key).Some? && LastOn(w.log, key).value.Store?)
      && (key in w.document ==> w.document[key] == LastOn(w.log, key).value.token)
  {
    RunInv(Initial, es);
    ReplayAt(Run(Initial, es).log, key);
  }

  /** At the moment a call returns normally its effect holds. */
  lemma NormalReturnMeansEffect(es: seq<Event>, e: Event, c: nat)
    requires var w := Run(Initial, es);
      c < |w.calls| && !w.calls[c].phase.Returned? && c < |Step(w, e).calls| && Step(w, e).calls[c].phase.Returned?
    ensures var w' := Step(Run(Initial, es), e);
      Holds(w'.document, w'.calls[c].op)
  {
    RunInv(Initial, es);
    assert CallOk(Run(Initial, es), c);
  }

  /* ---------- writes of a call that does not return ---------- */

  /** The call's write is applied now, and its reply is lost. */
  predicate LosesReply(w: World, e: Event, c: nat) {
    && e.Posted? && e.call == c && e.fate.ReplyLost?
    && c < |w.calls| && w.calls[c].phase.Fetched? && w.calls[c].phase.version == w.version
  }

  function LostReplies(w: World, es: seq<Event>, c: nat): nat
    decreases |es|
  {
    if es == [] then 0
    else (if LosesReply(w, es[0], c) then 1 else 0) + LostReplies(Step(w, es[0]), es[1..], c)
  }

  function LostOf(w: World, c: nat): nat { if c < |w.calls| then w.calls[c].lost else 0 }

  lemma {:induction false} LostIsCounted(w: World, es: seq<Event>, c: nat)
    ensures LostOf(Run(w, es), c) == LostOf(w, c) + LostReplies(w, es, c)
    decreases |es|
  {
    if es != [] { LostIsCounted(Step(w, es[0]), es[1..], c); }
  }

  /** How often a store wrote: once for each applied write whose reply was lost, and once more
      if it returned. */
  lemma StoreWritesAreCounted(es: seq<Event>, c: nat)
    requires c < |Run(Initial, es).calls| && Run(Initial, es).calls[c].op.Store?
    ensures var w := Run(Initial, es);
      && WritesBy(w.log, c) == LostReplies(Initial, es, c) + (if w.calls[c].phase.Returned? then 1 else 0)
      && (WritesBy(w.log, c) > 1 <==>
            LostReplies(Initial, es, c) > (if w.calls[c].phase.Returned? then 0 else 1))
  {
    RunInv(Initial, es);
    assert CallOk(Run(Initial, es), c);
    LostIsCounted(Initial, es, c);
  }

  /** A call that gave up on conflicts changed nothing if and only if none of its applied writes
      lost its reply; with every exchange answered at least three writes of other calls were
      accepted while it ran. */
  lemma GivingUpChangesNothing(es: seq<Event>, c: nat)
    requires c < |Run(Initial, es).calls| && Run(Initial, es).calls[c].phase.GaveUp?
    ensures var w := Run(Initial, es);
      && (WritesBy(w.log, c) == 0 <==> LostReplies(Initial, es, c) == 0)
      && WritesBy(w.log, c) == LostReplies(Initial, es, c)
      && (w.calls[c].noise == 0 ==> WritesBy(w.log, c) == 0 && w.version >= w.calls[c].began + ATTEMPTS)
  {
    RunInv(Initial, es);
    assert CallOk(Run(Initial, es), c);
    LostIsCounted(Initial, es, c);
  }

  const Mine := Store("k", "mine")

  const Theirs := Store("k", "theirs")

  /** Two applied writes whose replies are lost in errors that say "cas". */
  const TwoLost := [Began(Mine), Got(0, true), Posted(0, ReplyLost(true)), Got(0, true), Posted(0, ReplyLost(true))]

  /** Then another store gets in before the third. */
  const ThenBeaten := [Got(0, true), Began(Theirs), Got(1, true), Posted(1, Answered), Posted(0, Answered)]

  lemma RunFive(w: World, a: Event, b: Event, c: Event, d: Event, e: Event)
    ensures Run(w, [a, b, c, d, e]) == Step(Step(Step(Step(Step(w, a), b), c), d), e)
  {
    assert [a, b, c, d, e][1..] == [b, c, d, e];
    assert [b, c, d, e][1..] == [c, d, e];
    assert [c, d, e][1..] == [d, e];
    assert [d, e][1..] == [e];
    assert [e][1..] == [];
    var v := Step(Step(Step(w, a), b), c);
    assert Run(v, [d, e]) == Run(Step(v, d), [e]) == Run(Step(Step(v, d), e), []);
    assert Run(w, [a, b, c, d, e]) == Run(Step(w, a), [b, c, d, e]);
    assert Run(Step(w, a), [b, c, d, e]) == Run(Step(Step(w, a), b), [c, d, e]) == Run(v, [d, e]);
  }

  const Doc: Document := map["k" := "mine"]

  const Halfway := World(Doc, 2, [Write(0, Mine), Write(0, Mine)], [Call(Mine, Ready(2), 0, 2, 0, 2)])

  lemma FirstHalf()
    ensures Run(Initial, TwoLost) == Halfway
  {
    RunFive(Initial, Began(Mine), Got(0, true), Posted(0, ReplyLost(true)), Got(0, true), Posted(0, ReplyLost(true)));
    var a := Step(Step(Initial, Began(Mine)), Got(0, true));
    assert a == World(map[], 0, [], [Call(Mine, Fetched(0, Doc, 0), 0, 0, 0, 0)]);
    var b := Step(a, Posted(0, ReplyLost(true)));
    assert b == World(Doc, 1, [Write(0, Mine)], [Call(Mine, Ready(1), 0, 1, 0, 1)]);
    var c := Step(b, Got(0, true));
    assert Apply(Doc, Mine) == Doc;
    assert c == World(Doc, 1, [Write(0, Mine)], [Call(Mine, Fetched(1, Doc, 1), 0, 1, 0, 1)]);
    assert Step(c, Posted(0, ReplyLost(true))) == Halfway;
  }

  lemma SecondHalf()
    ensures var w := Run(Halfway, ThenBeaten);
      && |w.calls| == 2 && w.calls[0].phase == GaveUp
      && w.log == [Write(0, Mine), Write(0, Mine), Write(1, Theirs)]
      && "k" in w.document && w.document["k"] == "theirs"
  {
    RunFive(Halfway, Got(0, true), Began(Theirs), Got(1, true), Posted(1, Answered), Posted(0, Answered));
    var a := Step(Halfway, Got(0, true));
    assert a.calls == [Call(Mine, Fetched(2, Apply(Doc, Mine), 2), 0, 2, 0, 2)];
    var b := Step(Step(a, Began(Theirs)), Got(1, true));
    assert b.calls == [a.calls[0], Call(Theirs, Fetched(0, Apply(Doc, Theirs), 2), 2, 0, 0, 0)];
    var c := Step(b, Posted(1, Answered));
    assert c.calls == [a.calls[0], Call(Theirs, Returned, 2, 0, 0, 0)] && c.version == 3;
    assert c.log == [Write(0, Mine), Write(0, Mine), Write(1, Theirs)] && c.document == Apply(Doc, Theirs);
  }

  lemma WroteTwice()
    ensures WritesBy([Write(0, Mine), Write(0, Mine), Write(1, Theirs)], 0) == 2
  {
    LogGrows([], Write(0, Mine), 0);
    LogGrows([Write(0, Mine)], Write(0, Mine), 0);
    LogGrows([Write(0, Mine), Write(0, Mine)], Write(1, Theirs), 0);
    assert [] + [Write(0, Mine)] == [Write(0, Mine)];
    assert [Write(0, Mine)] + [Write(0, Mine)] == [Write(0, Mine), Write(0, Mine)];
    assert [Write(0, Mine), Write(0, Mine)] + [Write(1, Theirs)] == [Write(0, Mine), Write(0, Mine), Write(1, Theirs)];
  }

  /** A call that wrote twice and then gave up, its token overwritten. */
  lemma GaveUpHavingWrittenTwice()
    ensures var w := Run(Run(Initial, TwoLost), ThenBeaten);
      && |w.calls| == 2 && w.calls[0].phase == GaveUp
      && WritesBy(w.log, 0) == 2
      && "k" in w.document && w.document["k"] == "theirs"
  {
    FirstHalf();
    SecondHalf();
    WroteTwice();
  }

  /* ---------- real-time order ---------- */

  predicate Ended(p: Phase) { p.Returned? || p.GaveUp? || p.Raised? }

  /** The log only grows, and an ended call adds nothing more. */
  predicate Extends(a: World, b: World) {
    && a.log <= b.log
    && |a.calls| <= |b.calls|
    && (forall c :: 0 <= c < |a.calls| && Ended(a.calls[c].phase) ==> b.calls[c] == a.calls[c])
    && (forall k :: |a.log| <= k < |b.log| && b.log[k].call < |a.calls| ==> !Ended(a.calls[b.log[k].call].phase))
    && (forall c :: |a.calls| <= c < |b.calls| ==> b.calls[c].began >= |a.log|)
    && (forall c :: 0 <= c < |a.calls| ==> b.calls[c].began == a.calls[c].began)
  }

  lemma StepExtends(w: World, e: Event)
    requires Inv(w)
    ensures Extends(w, Step(w, e))
  {
  }

  lemma ExtendsIsTransitive(a: World, b: World, c: World)
    requires Extends(a, b) && Extends(b, c)
    ensures Extends(a, c)
  {
  }

  lemma {:induction false} RunExtends(w: World, es: seq<Event>)
    requires Inv(w)
    ensures Extends(w, Run(w, es))
    decreases |es|
  {
    if es != [] {
      var mid := Step(w, es[0]);
      StepInv(w, es[0]);
      StepExtends(w, es[0]);
      RunExtends(mid, es[1..]);
      ExtendsIsTransitive(w, mid, Run(w, es));
    }
  }

  /** The version order respects time: every write of a call that had ended before another
      began precedes every write of that other call. */
  lemma WritesFollowRealTime(es: seq<Event>, more: seq<Event>, j: nat, k: nat)
    requires var w, w' := Run(Initial, es), Run(Run(Initial, es), more);
      && j < |w'.log| && k < |w'.log|
      && w'.log[j].call < |w.calls| && Ended(w.calls[w'.log[j].call].phase)
      && w'.log[k].call >= |w.calls|
    ensures j < k
  {
    RunInv(Initial, es);
    RunInv(Run(Initial, es), more);
    RunExtends(Run(Initial, es), more);
  }
}
