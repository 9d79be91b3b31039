/**
 Optimistic compare-and-set on one shared credentials document.  Any number of calls run
 concurrently: each reads the document with its version, changes one reference, and writes
 the whole document back on condition that the version still stands; up to three attempts.
 */
module Credentials {
  import opened Common

  type Ref = string
  type Token = string
  type Document = map<Ref, Token>

  const ATTEMPTS := 3

  datatype Op = Store(key: Ref, token: Token) | Delete(key: Ref)

  function Apply(d: Document, op: Op): Document {
    match op
    case Store(key, token) => d[key := token]
    case Delete(key) => d - {key}
  }

  /** What the caller asked for is so. */
  predicate Holds(d: Document, op: Op) {
    match op
    case Store(key, token) => key in d && d[key] == token
    case Delete(key) => key !in d
  }

  datatype Phase =
    | Ready(attempt: nat)
    | Fetched(attempt: nat, document: Document, version: nat)
    | Returned
    | GaveUp   // the third conflict in a row of attempts
    | Raised   // any other error

  /** Bookkeeping for the theorems: the server's version when the call began, its applied
      writes whose reply never arrived, its conflicts, and its retried lost exchanges. */
  datatype Call = Call(op: Op, phase: Phase, began: nat, lost: nat, conflicts: nat, noise: nat)

  datatype Write = Write(call: nat, op: Op)

  /** `log` lists the applied writes in version order. */
  datatype World = World(document: Document, version: nat, log: seq<Write>, calls: seq<Call>)

  const Initial := World(map[], 0, [], [])

  /** Fate of a write request: answered; applied or not but the reply lost; never arrived.
      A lost exchange raises an error that is retried only if its text happens to say "cas". */
  datatype Fate = Answered | ReplyLost(saysCas: bool) | RequestLost(saysCas: bool)

  function Again(call: Call, attempt: nat, saysCas: bool): Call {
    if saysCas && attempt < ATTEMPTS - 1
    then call.(phase := Ready(attempt + 1), noise := call.noise + 1)
    else call.(phase := Raised)
  }

  /** Read the document; a delete of an absent reference is done. */
  function Fetch(w: World, c: nat, ok: bool): World {
    if c < |w.calls| && w.calls[c].phase.Ready? then
      var call := w.calls[c];
      var next :=
        if !ok then Raised
        else if call.op.Delete? && call.op.key !in w.document then Returned
        else Fetched(call.phase.attempt, Apply(w.document, call.op), w.version);
      w.(calls := w.calls[c := call.(phase := next)])
    else w
  }

  function Put(w: World, c: nat, fate: Fate): World {
    if c < |w.calls| && w.calls[c].phase.Fetched? then
      var call := w.calls[c];
      var a := call.phase.attempt;
      var accepts := call.phase.version == w.version;
      if fate.RequestLost? then
        w.(calls := w.calls[c := Again(call, a, fate.saysCas)])
      else if !accepts then
        w.(calls := w.calls[c :=
          if fate.ReplyLost? then Again(call, a, fate.saysCas)
          else call.(phase := if a < ATTEMPTS - 1 then Ready(a + 1) else GaveUp, conflicts := call.conflicts + 1)])
      else
        World(call.phase.document, w.version + 1, w.log + [Write(c, call.op)],
              w.calls[c := if fate.ReplyLost? then Again(call.(lost := call.lost + 1), a, fate.saysCas)
                           else call.(phase := Returned)])
    else w
  }

  datatype Event = Began(op: Op) | Got(call: nat, ok: bool) | Posted(call: nat, fate: Fate)

  function Step(w: World, e: Event): World {
    match e
    case Began(op) => w.(calls := w.calls + [Call(op, Ready(0), w.version, 0, 0, 0)])
    case Got(call, ok) => Fetch(w, call, ok)
    case Posted(call, fate) => Put(w, call, fate)
  }

  function Run(w: World, es: seq<Event>): World
    decreases |es|
  {
    if es == [] then w else Run(Step(w, es[0]), es[1..])
  }
}
