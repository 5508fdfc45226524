/** The product catalog of the "ProductManager" tool server, as values.

    The server keeps one dictionary from product id to a record with a name,
    a description and a price. Each tool call reads or changes that dictionary
    and answers with a small dictionary; `Reply` has one constructor per shape
    of answer. The functions below give the meaning of each tool as a step
    from one catalog to the next; `Run` replays a sequence of tool calls in
    the order the server handles them.
 */
module Catalog {

  /** A stored record: the `name`, `description` and `price` keys. */
  datatype Product = Product(name: string, description: string, price: int)

  /** The `products` dictionary: product id to its record. */
  type Store = map<string, Product>

  const AlreadyExists: string := "Produto já existe"
  const NotFound: string := "Produto não encontrado"
  const CreatedStatus: string := "Produto cadastrado"
  const DeletedStatus: string := "Produto deletado"

  /** The answers of the four tools. */
  datatype Reply =
    | Error(error: string)                          // {"error": ...}
    | Registered(status: string, product: Product)  // {"status": ..., "product": {...}}
    | Removed(status: string)                       // {"status": ...}
    | Found(id: string, name: string, description: string, price: int)  // {"id": ..., **record}
    | Total(total: nat)                             // {"total": ...}

  /** `create_product`: registers a new id; an id already present is refused
      and its record is never overwritten. */
  function Create(s: Store, id: string, name: string, description: string, price: int): (r: (Store, Reply))
    ensures id in s ==> r.0 == s && r.1 == Error(AlreadyExists)
    ensures id !in s ==> r.0.Keys == s.Keys + {id} && r.0[id] == Product(name, description, price)
    ensures id !in s ==> r.1 == Registered(CreatedStatus, r.0[id])
    ensures forall k :: k in s ==> k in r.0 && r.0[k] == s[k]
    ensures |r.0| == if id in s then |s| else |s| + 1
  {
    if id in s then
      (s, Error(AlreadyExists))
    else
      var s' := s[id := Product(name, description, price)];
      (s', Registered(CreatedStatus, s'[id]))
  }

  /** `delete_product`: removes a present id and nothing else; an absent id
      is reported and the store is left as it was. */
  function Delete(s: Store, id: string): (r: (Store, Reply))
    ensures id !in s ==> r.0 == s && r.1 == Error(NotFound)
    ensures id in s ==> r.0.Keys == s.Keys - {id} && r.1 == Removed(DeletedStatus)
    ensures forall k :: k in r.0 ==> k in s && k != id && r.0[k] == s[k]
    ensures |r.0| == if id in s then |s| - 1 else |s|
  {
    if id !in s then
      (s, Error(NotFound))
    else
      var s' := s - {id};
      assert s'.Keys == s.Keys - {id};
      (s', Removed(DeletedStatus))
  }

  /** `get_product`: the stored record of a present id, together with the id. */
  function Get(s: Store, id: string): (r: Reply)
    ensures r.Found? <==> id in s
    ensures r.Found? ==> r.id == id && Product(r.name, r.description, r.price) == s[id]
    ensures !r.Found? ==> r == Error(NotFound)
  {
    if id !in s then
      Error(NotFound)
    else
      var p := s[id];
      Found(id, p.name, p.description, p.price)
  }

  /** `count_products`: the number of stored products. */
  function Count(s: Store): (r: Reply)
    ensures r.Total? && r.total == |s.Keys|
  {
    Total(|s|)
  }

  /** One tool invocation with its arguments. */
  datatype Call =
    | CreateCall(id: string, name: string, description: string, price: int)
    | DeleteCall(id: string)
    | GetCall(id: string)
    | CountCall

  /** The effect and answer of one tool invocation. Queries leave the store
      alone, and every call changes the product count by exactly what its
      answer reports. */
  function Step(s: Store, call: Call): (r: (Store, Reply))
    ensures call.GetCall? || call.CountCall? ==> r.0 == s
    ensures |r.0| == |s| + Change(r.1)
  {
    match call
    case CreateCall(id, name, description, price) => Create(s, id, name, description, price)
    case DeleteCall(id) => Delete(s, id)
    case GetCall(id) => (s, Get(s, id))
    case CountCall => (s, Count(s))
  }

  /** Calls handled one after another, each on the state the previous one
      left: the final state and one answer per call, in order. */
  function Replay<S, C, R>(step: (S, C) -> (S, R), s: S, calls: seq<C>): (r: (S, seq<R>))
    ensures |r.1| == |calls|
    decreases |calls|
  {
    if calls == [] then
      (s, [])
    else
      var first := step(s, calls[0]);
      var rest := Replay(step, first.0, calls[1..]);
      (rest.0, [first.1] + rest.1)
  }

  /** Tool invocations handled one after another on the same store:
      the final store and one answer per call, in order. */
  function Run(s: Store, calls: seq<Call>): (r: (Store, seq<Reply>))
    ensures |r.1| == |calls|
  {
    Replay(Step, s, calls)
  }

  /** Replaying two batches one after the other is replaying their
      concatenation. */
  lemma {:induction false} ReplayAppend<S, C, R>(step: (S, C) -> (S, R), s: S, a: seq<C>, b: seq<C>)
    ensures Replay(step, s, a + b).0 == Replay(step, Replay(step, s, a).0, b).0
    ensures Replay(step, s, a + b).1 == Replay(step, s, a).1 + Replay(step, Replay(step, s, a).0, b).1
    decreases |a|
  {
    if a == [] {
      assert a + b == b;
    } else {
      var first := step(s, a[0]);
      assert (a + b)[0] == a[0];
      assert (a + b)[1..] == a[1..] + b;
      ReplayAppend(step, first.0, a[1..], b);
      var tail := Replay(step, first.0, a[1..]);
      var last := Replay(step, tail.0, b);
      assert [first.1] + (tail.1 + last.1) == ([first.1] + tail.1) + last.1;
    }
  }

  /** Running two batches of calls one after the other is running their
      concatenation: the second batch starts from the store the first left,
      and the answers follow each other in order. */
  lemma RunAppend(s: Store, a: seq<Call>, b: seq<Call>)
    ensures Run(s, a + b).0 == Run(Run(s, a).0, b).0
    ensures Run(s, a + b).1 == Run(s, a).1 + Run(Run(s, a).0, b).1
  {
    ReplayAppend(Step, s, a, b);
  }

  /** The answer to the i-th call is the answer that call gives on the store
      left by the calls before it. */
  lemma RunAt(s: Store, calls: seq<Call>, i: nat)
    requires i < |calls|
    ensures Run(s, calls).1[i] == Step(Run(s, calls[..i]).0, calls[i]).1
  {
    assert calls[..i] + calls[i..] == calls;
    ReplayAppend(Step, s, calls[..i], calls[i..]);
    var before := Run(s, calls[..i]);
    assert calls[i..][0] == calls[i];
    assert Run(s, calls).1[i] == Run(before.0, calls[i..]).1[0];
  }

  /** +1 for an answer that registered a product, -1 for one that removed a
      product, 0 otherwise. */
  function Change(reply: Reply): int {
    match reply
    case Registered(_, _) => 1
    case Removed(_) => -1
    case _ => 0
  }

  /** The number of registrations minus the number of removals among `replies`. */
  function NetChange(replies: seq<Reply>): int {
    if replies == [] then 0 else Change(replies[0]) + NetChange(replies[1..])
  }

  /** The count after a run of tool calls is the count before it plus the
      number of successful creations minus the number of successful deletions. */
  lemma {:induction false} RunCount(s: Store, calls: seq<Call>)
    ensures |Run(s, calls).0| == |s| + NetChange(Run(s, calls).1)
    decreases |calls|
  {
    if calls != [] {
      var (s1, reply) := Step(s, calls[0]);
      RunCount(s1, calls[1..]);
      var replies := Run(s, calls).1;
      assert replies == [reply] + Run(s1, calls[1..]).1;
      assert replies[1..] == Run(s1, calls[1..]).1;
    }
  }

  /** A stored record survives any run of tool calls that does not delete its
      id: creating the same id again never overwrites it. */
  lemma {:induction false} RunKeepsRecord(s: Store, calls: seq<Call>, id: string)
    requires id in s
    requires forall i :: 0 <= i < |calls| ==> calls[i] != DeleteCall(id)
    ensures id in Run(s, calls).0 && Run(s, calls).0[id] == s[id]
    decreases |calls|
  {
    if calls != [] {
      var s1 := Step(s, calls[0]).0;
      assert id in s1 && s1[id] == s[id];
      RunKeepsRecord(s1, calls[1..], id);
    }
  }

  /** Round trip: after a successful creation, and any later calls that do not
      delete that id, getting it answers with exactly the fields passed in. */
  lemma {:induction false} CreateThenGet(s: Store, id: string, name: string, description: string, price: int, calls: seq<Call>)
    requires id !in s
    requires forall i :: 0 <= i < |calls| ==> calls[i] != DeleteCall(id)
    ensures Get(Run(Create(s, id, name, description, price).0, calls).0, id)
            == Found(id, name, description, price)
  {
    RunKeepsRecord(Create(s, id, name, description, price).0, calls, id);
  }

  /** A successful creation followed by the deletion of the same id restores
      the original store. */
  lemma CreateThenDelete(s: Store, id: string, name: string, description: string, price: int)
    requires id !in s
    ensures Delete(Create(s, id, name, description, price).0, id).0 == s
  {
  }
}
