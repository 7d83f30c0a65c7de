/** What a caller observes over any sequence of calls on one AbstractVector:
    the vector's observable state, one step per call, and the replies. This
    is the setting in which "on every call" and "later calls see earlier
    writes to the bag" are stated and proved. */
module VectorCalls {
  import opened Vectors

  /** Everything a caller can observe of a vector: name, size and the
      current contents of its property bag. */
  datatype Observed<V> = Observed(name: string, n: int, bag: map<string, V>)

  /** One call on a vector, or a write through the bag it handed out. */
  datatype Call<V> =
    | Size
    | GetName
    | GetValue(index: int)
    | GetProperties
    | WriteBag(contents: map<string, V>)

  /** What a call gives back: a value, a thrown error, or nothing (a write). */
  datatype Reply<V> =
    | Count(n: int)
    | Name(name: string)
    | Thrown(error: Error)
    | Bag(contents: map<string, V>)
    | Written

  /** The state of a vector just after `new AbstractVector(name, size)`. */
  function Initial<V>(name: string, size: int): Observed<V>
  {
    Observed(name, size, map[])
  }

  /** The observable state of a vector object. */
  function Observe<T, V>(v: AbstractVector<T, V>): Observed<V>
    reads v.GetProperties()
  {
    Observed(v.GetName(), v.Size(), v.GetProperties().m)
  }

  /** One call: the accessors only read; a write replaces the bag's contents. */
  function Step<V>(s: Observed<V>, c: Call<V>): (Observed<V>, Reply<V>)
  {
    match c
    case Size => (s, Count(s.n))
    case GetName => (s, Name(s.name))
    case GetValue(_) => (s, Thrown(NotImplemented))
    case GetProperties => (s, Bag(s.bag))
    case WriteBag(contents) => (s.(bag := contents), Written)
  }

  /** A sequence of calls, in order: the final state and one reply per call. */
  function Run<V>(s: Observed<V>, calls: seq<Call<V>>): (r: (Observed<V>, seq<Reply<V>>))
    ensures |r.1| == |calls|
    decreases |calls|
  {
    if calls == [] then (s, [])
    else
      var (s', reply) := Step(s, calls[0]);
      var (last, replies) := Run(s', calls[1..]);
      (last, [reply] + replies)
  }

  /** The bag contents after some calls, read off from the end: those of the
      last write, or the starting contents if there was none. */
  function LastWrite<V>(bag: map<string, V>, calls: seq<Call<V>>): map<string, V>
    decreases |calls|
  {
    if calls == [] then bag
    else if calls[|calls| - 1].WriteBag? then calls[|calls| - 1].contents
    else LastWrite(bag, calls[..|calls| - 1])
  }

  /** The object and the call model agree: each accessor of a vector replies
      as Step does on that vector's observed state. */
  lemma ObjectRepliesAsStep<T, V>(v: AbstractVector<T, V>, index: int)
    ensures Step(Observe(v), Size).1 == Count(v.Size())
    ensures Step(Observe(v), GetName).1 == Name(v.GetName())
    ensures Step(Observe(v), GetValue(index)).1 == Thrown(v.GetValue(index).error)
    ensures Step(Observe(v), GetProperties).1 == Bag(v.GetProperties().m)
  {
  }

  /** Runs a sequence of calls on a vector object, a WriteBag being an
      assignment to the contents of the bag that getProperties() hands out.
      The object's final observed state and the replies are exactly those
      of Run, so every lemma about Run holds of the object. */
  method Replay<T, V>(v: AbstractVector<T, V>, calls: seq<Call<V>>) returns (replies: seq<Reply<V>>)
    modifies v.GetProperties()
    ensures (Observe(v), replies) == Run(old(Observe(v)), calls)
  {
    ghost var s0 := Observe(v);
    replies := [];
    var i := 0;
    assert calls[i..] == calls && replies + Run(s0, calls).1 == Run(s0, calls).1;
    while i < |calls|
      invariant 0 <= i <= |calls|
      invariant Run(s0, calls) == (Run(Observe(v), calls[i..]).0, replies + Run(Observe(v), calls[i..]).1)
    {
      ghost var before := Observe(v);
      var reply;
      match calls[i] {
        case Size => reply := Count(v.Size());
        case GetName => reply := Name(v.GetName());
        case GetValue(index) => reply := Thrown(v.GetValue(index).error);
        case GetProperties => reply := Bag(v.GetProperties().m);
        case WriteBag(contents) =>
          var bag := v.GetProperties();
          bag.m := contents;
          reply := Written;
      }
      assert (Observe(v), reply) == Step(before, calls[i]);
      assert calls[i..][0] == calls[i] && calls[i..][1..] == calls[i + 1..];
      ghost var rest := Run(Observe(v), calls[i + 1..]);
      assert Run(before, calls[i..]) == (rest.0, [reply] + rest.1);
      assert replies + ([reply] + rest.1) == (replies + [reply]) + rest.1;
      replies := replies + [reply];
      i := i + 1;
    }
    assert calls[i..] == [];
    assert replies + [] == replies;
  }

  /** No sequence of calls, bag writes included, changes the name or the size. */
  lemma {:induction false} RunKeepsNameAndSize<V>(s: Observed<V>, calls: seq<Call<V>>)
    ensures Run(s, calls).0.name == s.name && Run(s, calls).0.n == s.n
    decreases |calls|
  {
    if calls != [] {
      RunKeepsNameAndSize(Step(s, calls[0]).0, calls[1..]);
    }
  }

  /** Every size() call in any sequence of calls replies with the size the
      vector was constructed with. */
  lemma {:induction false} SizeOnEveryCall<V>(name: string, size: int, calls: seq<Call<V>>, i: nat)
    requires i < |calls| && calls[i] == Size
    ensures Run(Initial(name, size), calls).1[i] == Count(size)
  {
    NameAndSizeBeforeEveryCall(Initial(name, size), calls, i);
  }

  /** Every getName() call in any sequence of calls replies with the name the
      vector was constructed with. */
  lemma {:induction false} NameOnEveryCall<V>(name: string, size: int, calls: seq<Call<V>>, i: nat)
    requires i < |calls| && calls[i] == GetName
    ensures Run(Initial(name, size), calls).1[i] == Name(name)
  {
    NameAndSizeBeforeEveryCall(Initial(name, size), calls, i);
  }

  /** Every getValue call throws "Not implemented", whatever its index and
      whatever came before it. */
  lemma {:induction false} GetValueAlwaysThrows<V>(s: Observed<V>, calls: seq<Call<V>>, i: nat)
    requires i < |calls| && calls[i].GetValue?
    ensures Run(s, calls).1[i] == Thrown(Error("Not implemented"))
    decreases |calls|
  {
    if i > 0 {
      GetValueAlwaysThrows(Step(s, calls[0]).0, calls[1..], i - 1);
    }
  }

  /** Every getProperties() call sees the contents of the last write made
      before it, or the constructor's empty bag if there was none: writes
      through the handed-out bag are visible to later calls. */
  lemma {:induction false} PropertiesSeeLastWrite<V>(name: string, size: int, calls: seq<Call<V>>, i: nat)
    requires i < |calls| && calls[i] == GetProperties
    ensures Run(Initial(name, size), calls).1[i] == Bag(LastWrite(map[], calls[..i]))
  {
    BagBeforeEveryCall(Initial(name, size), calls, i);
  }

  /** After any sequence of calls the bag holds the last write's contents. */
  lemma {:induction false} FinalBagIsLastWrite<V>(s: Observed<V>, calls: seq<Call<V>>)
    ensures Run(s, calls).0.bag == LastWrite(s.bag, calls)
    decreases |calls|
  {
    if calls != [] {
      var s' := Step(s, calls[0]).0;
      FinalBagIsLastWrite(s', calls[1..]);
      LastWriteAfterFirst(s.bag, calls);
    }
  }

  /** The state in which call i runs still has the starting name and size. */
  lemma {:induction false} NameAndSizeBeforeEveryCall<V>(s: Observed<V>, calls: seq<Call<V>>, i: nat)
    requires i < |calls|
    ensures Run(s, calls).1[i] == Step(Run(s, calls[..i]).0, calls[i]).1
    ensures Run(s, calls[..i]).0.name == s.name && Run(s, calls[..i]).0.n == s.n
  {
    ReplyAt(s, calls, i);
    RunKeepsNameAndSize(s, calls[..i]);
  }

  /** The state in which call i runs holds the bag of the last earlier write. */
  lemma {:induction false} BagBeforeEveryCall<V>(s: Observed<V>, calls: seq<Call<V>>, i: nat)
    requires i < |calls|
    ensures Run(s, calls).1[i] == Step(Run(s, calls[..i]).0, calls[i]).1
    ensures Run(s, calls[..i]).0.bag == LastWrite(s.bag, calls[..i])
    ensures Run(s, calls[..i]).0.name == s.name && Run(s, calls[..i]).0.n == s.n
  {
    NameAndSizeBeforeEveryCall(s, calls, i);
    FinalBagIsLastWrite(s, calls[..i]);
  }

  /** Reply i of a run is the reply of call i in the state the first i calls
      leave behind. */
  lemma {:induction false} ReplyAt<V>(s: Observed<V>, calls: seq<Call<V>>, i: nat)
    requires i < |calls|
    ensures Run(s, calls).1[i] == Step(Run(s, calls[..i]).0, calls[i]).1
    decreases |calls|
  {
    if i > 0 {
      var s' := Step(s, calls[0]).0;
      ReplyAt(s', calls[1..], i - 1);
      assert calls[1..][..i - 1] == calls[..i][1..];
      assert calls[1..][i - 1] == calls[i];
    }
  }

  /** Reading the last write from the end agrees with applying the first call
      and then reading the rest. */
  lemma {:induction false} LastWriteAfterFirst<V>(bag: map<string, V>, calls: seq<Call<V>>)
    requires calls != []
    ensures LastWrite(bag, calls) == LastWrite(if calls[0].WriteBag? then calls[0].contents else bag, calls[1..])
    decreases |calls|
  {
    var rest := calls[1..];
    if rest != [] {
      assert calls[|calls| - 1] == rest[|rest| - 1];
      if !rest[|rest| - 1].WriteBag? {
        var front := calls[..|calls| - 1];
        assert front[1..] == rest[..|rest| - 1];
        LastWriteAfterFirst(bag, front);
      }
    }
  }
}
