/**
 * The queue store: named queues of payloads and the scheduled set. A queue is
 * held newest first: Push puts a payload at the front, Pop takes the oldest one
 * from the back, so payloads pushed at one priority come out in push order.
 */
module Storage {
  import opened Wrappers

  /** Queue names are letters, digits, '_', '.' and '-', at least one of them. */
  predicate NameChar(c: char) {
    ('A' <= c <= 'Z') || ('a' <= c <= 'z') || ('0' <= c <= '9') || c == '_' || c == '.' || c == '-'
  }

  predicate ValidName(name: string) {
    |name| > 0 && forall i :: 0 <= i < |name| ==> NameChar(name[i])
  }

  datatype StoreError = InvalidName(name: string)

  /** The error a cancelled context reports. */
  datatype ContextError = Canceled

  /** The payloads that successive pops return, oldest first, until the queue is empty. */
  function Drain<T>(items: seq<T>): (out: seq<T>)
    ensures |out| == |items|
  {
    if items == [] then [] else [items[|items| - 1]] + Drain(items[..|items| - 1])
  }

  /** The queue contents after pushing each of xs in order. */
  function PushAll<T>(items: seq<T>, xs: seq<T>): (r: seq<T>)
    ensures |r| == |items| + |xs|
  {
    if xs == [] then items else [xs[|xs| - 1]] + PushAll(items, xs[..|xs| - 1])
  }

  lemma {:induction false} DrainPushed<T>(x: T, items: seq<T>)
    ensures Drain([x] + items) == Drain(items) + [x]
    decreases |items|
  {
    if items != [] {
      var s := [x] + items;
      assert s[..|s| - 1] == [x] + items[..|items| - 1];
      DrainPushed(x, items[..|items| - 1]);
    }
  }

  /** Pops return first what was pushed first: the queue is FIFO within a priority. */
  lemma {:induction false} DrainPushAll<T>(items: seq<T>, xs: seq<T>)
    ensures Drain(PushAll(items, xs)) == Drain(items) + xs
    decreases |xs|
  {
    if xs != [] {
      var init, last := xs[..|xs| - 1], xs[|xs| - 1];
      DrainPushed(last, PushAll(items, init));
      DrainPushAll(items, init);
      assert init + [last] == xs;
    }
  }

  /** Each visits the most recent push at index 0 and the oldest payload last. */
  lemma {:induction false} PushAllNewestFirst<T>(items: seq<T>, xs: seq<T>, i: nat)
    requires i < |xs|
    ensures PushAll(items, xs)[i] == xs[|xs| - 1 - i]
    decreases |xs|
  {
    if i > 0 {
      PushAllNewestFirst(items, xs[..|xs| - 1], i - 1);
    }
  }

  /** One named queue. */
  class Queue<T> {
    const name: string
    /** Newest first: items[0] is the latest push, items[|items| - 1] the next to pop. */
    var items: seq<T>

    constructor (name: string)
      ensures this.name == name && items == []
    {
      this.name := name;
      items := [];
    }

    function Size(): (n: nat)
      reads this
      ensures n == |items|
    {
      |items|
    }

    /** Every push at every priority lands at the front; see "Left out" for priority tiers. */
    method Push(priority: int, payload: T)
      modifies this
      ensures items == [payload] + old(items)
      ensures Size() == old(Size()) + 1
    {
      items := [payload] + items;
    }

    /** Non-blocking: nil data and no error when empty, otherwise the oldest payload. */
    method Pop() returns (data: Option<T>)
      modifies this
      ensures old(items) == [] ==> data == None && items == []
      ensures old(items) != [] ==>
        && data == Some(old(items)[|old(items)| - 1])
        && items == old(items)[..|old(items)| - 1]
        && Size() == old(Size()) - 1
      ensures old(items) != [] ==> data == Some(Drain(old(items))[0]) && Drain(items) == Drain(old(items))[1..]
    {
      if items == [] {
        data := None;
      } else {
        data := Some(items[|items| - 1]);
        items := items[..|items| - 1];
      }
    }

    /**
     * Blocking pop: a cancelled context returns its error at once without
     * touching the queue; otherwise it pops, and finds nothing (a timeout, not
     * an error) when the queue stays empty.
     */
    method BPop(cancelled: bool) returns (data: Option<T>, err: Option<ContextError>)
      modifies this
      ensures cancelled ==> data == None && err == Some(Canceled) && items == old(items)
      ensures !cancelled ==> err == None
      ensures !cancelled && old(items) == [] ==> data == None && items == []
      ensures !cancelled && old(items) != [] ==>
        && data == Some(Drain(old(items))[0])
        && Drain(items) == Drain(old(items))[1..]
    {
      if cancelled {
        return None, Some(Canceled);
      }
      data := Pop();
      err := None;
    }

    /** The (index, payload) pairs Each hands its callback, newest first. */
    method Each() returns (visits: seq<(nat, T)>)
      ensures |visits| == |items|
      ensures forall i :: 0 <= i < |visits| ==> visits[i] == (i, items[i])
    {
      visits := [];
      var i := 0;
      while i < |items|
        invariant 0 <= i <= |items|
        invariant |visits| == i
        invariant forall j :: 0 <= j < i ==> visits[j] == (j, items[j])
      {
        visits := visits + [(i, items[i])];
        i := i + 1;
      }
    }

    method Clear()
      modifies this
      ensures items == [] && Size() == 0
    {
      items := [];
    }
  }

  /** The queues and the scheduled set, as values. */
  datatype StoreState<T> = StoreState(queues: map<string, seq<T>>, scheduled: seq<(int, T)>)

  /** A queue that was never referenced is empty. */
  function QueueOf<T>(queues: map<string, seq<T>>, name: string): seq<T> {
    if name in queues then queues[name] else []
  }

  /** The store: one handle per queue name, created on first reference, and the scheduled set. */
  class Store<T> {
    var queues: map<string, Queue<T>>
    /** (due time, payload) entries waiting in the scheduled set. */
    var scheduled: seq<(int, T)>

    /** Each handle is filed under its own name, so different names give different queues. */
    ghost predicate Valid()
      reads this
    {
      forall n :: n in queues ==> queues[n].name == n
    }

    constructor ()
      ensures Valid() && queues == map[] && scheduled == []
    {
      queues := map[];
      scheduled := [];
    }

    /** The contents of the queue with the given name. */
    ghost function Items(name: string): seq<T>
      reads this, queues.Values
    {
      if name in queues then queues[name].items else []
    }

    /** The store holds exactly the given queues and scheduled set. */
    ghost predicate Holds(s: StoreState<T>)
      reads this, queues.Values
    {
      && (forall n :: Items(n) == QueueOf(s.queues, n))
      && scheduled == s.scheduled
    }

    ghost function State(): (s: StoreState<T>)
      reads this, queues.Values
      ensures Holds(s)
    {
      StoreState(map n | n in queues :: queues[n].items, scheduled)
    }

    function ScheduledSize(): (n: nat)
      reads this
      ensures n == |scheduled|
    {
      |scheduled|
    }

    /**
     * Checks the name and returns the queue's handle: the same handle on every
     * call with the same name, a new empty queue on the first.
     */
    method GetQueue(name: string) returns (r: Result<Queue<T>, StoreError>)
      requires Valid()
      modifies this
      ensures Valid() && scheduled == old(scheduled)
      ensures r.Success? == ValidName(name)
      ensures r.Failure? ==> r.error == InvalidName(name) && queues == old(queues)
      ensures r.Success? ==> name in queues && r.value == queues[name]
      ensures r.Success? && name in old(queues) ==> queues == old(queues)
      ensures r.Success? && name !in old(queues) ==>
        fresh(r.value) && r.value.items == [] && queues == old(queues)[name := r.value]
    {
      if !ValidName(name) {
        return Failure(InvalidName(name));
      }
      if name in queues {
        return Success(queues[name]);
      }
      var q := new Queue(name);
      queues := queues[name := q];
      return Success(q);
    }

    /** Adds an entry to the scheduled set. */
    method Schedule(at: int, payload: T)
      modifies this`scheduled
      ensures scheduled == old(scheduled) + [(at, payload)]
      ensures ScheduledSize() == old(ScheduledSize()) + 1
    {
      scheduled := scheduled + [(at, payload)];
    }
  }

  /** Pushes each payload in order, at one priority. */
  method PushEach<T>(q: Queue<T>, xs: seq<T>)
    modifies q
    ensures q.items == PushAll(old(q.items), xs)
  {
    var i := 0;
    while i < |xs|
      invariant 0 <= i <= |xs|
      invariant q.items == PushAll(old(q.items), xs[..i])
    {
      q.Push(5, xs[i]);
      assert xs[..i + 1][..i] == xs[..i];
      i := i + 1;
    }
    assert xs[..i] == xs;
  }

  /** Pops count times; each pop returns the next payload in pop order and shrinks the queue by one. */
  method PopEach<T>(q: Queue<T>, count: nat) returns (popped: seq<T>)
    requires count <= |q.items|
    modifies q
    ensures popped == Drain(old(q.items))[..count]
    ensures Drain(q.items) == Drain(old(q.items))[count..]
    ensures |q.items| == |old(q.items)| - count
  {
    ghost var order := Drain(q.items);
    popped := [];
    var i := 0;
    while i < count
      invariant 0 <= i <= count
      invariant |q.items| == |old(q.items)| - i
      invariant Drain(q.items) == order[i..]
      invariant popped == order[..i]
    {
      var data := q.Pop();
      popped := popped + [data.value];
      assert order[..i + 1] == order[..i] + [order[i]];
      i := i + 1;
    }
  }

  /**
   * The push/pop loops of the store's tests: pushing xs onto an empty queue and
   * popping as many times gives xs back in push order, and one more pop finds
   * nothing.
   */
  method PushAllThenPopAll<T>(q: Queue<T>, xs: seq<T>) returns (popped: seq<T>, extra: Option<T>)
    requires q.items == []
    modifies q
    ensures popped == xs && extra == None && q.items == []
  {
    PushEach(q, xs);
    DrainPushAll([], xs);
    popped := PopEach(q, |xs|);
    extra := q.Pop();
  }

  /**
   * The basic queue walk-through: an empty queue pops nothing; after pushing
   * "hello" then "world", Each visits the newer one first, Pop returns the
   * older one, and Clear empties the queue.
   */
  method BasicQueueOps() returns (first: Option<string>, sizes: seq<nat>, visits: seq<(nat, string)>, popped: Option<string>)
    ensures first == None
    ensures sizes == [0, 1, 2, 1, 0]
    ensures visits == [(0, "world"), (1, "hello")]
    ensures popped == Some("hello")
  {
    var q := new Queue<string>("default");
    sizes := [q.Size()];
    first := q.Pop();
    q.Push(5, "hello");
    sizes := sizes + [q.Size()];
    q.Push(5, "world");
    sizes := sizes + [q.Size()];
    visits := q.Each();
    popped := q.Pop();
    sizes := sizes + [q.Size()];
    q.Clear();
    sizes := sizes + [q.Size()];
  }

  lemma QueueNameExamples()
    ensures ValidName("A-Za-z0-9_.-") && ValidName("-") && ValidName("A") && ValidName("a")
    ensures !ValidName("default?page=1") && !ValidName("user@example.com")
    ensures !ValidName("c&c") && !ValidName("priority|high") && !ValidName("")
  {
    assert !NameChar("default?page=1"[7]);
    assert !NameChar("user@example.com"[4]);
    assert !NameChar("c&c"[1]);
    assert !NameChar("priority|high"[8]);
  }
}
