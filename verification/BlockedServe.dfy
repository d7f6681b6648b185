/** What serving blocked clients does to lists and sorted sets (blocked.c, t_list.c and t_zset.c), as values. */
module BlockedServe {
  import opened Basics
  import opened BlockedIndex

  /** Lists from head to tail, sorted sets from the least to the greatest score. */
  datatype Value = ListValue(elements: seq<Element>) | ZsetValue(elements: seq<Element>) | OtherValue

  /** What clients served from a value wait for. */
  function KindOf(v: Value): BlockType
  {
    match v case ListValue(_) => OnList case ZsetValue(_) => OnZset case OtherValue => NotBlocked
  }

  predicate Empty(v: Value) { !v.OtherValue? && v.elements == [] }

  type Data = map<Key, Value>

  /** BLPOP, BRPOP, BZPOPMIN and BZPOPMAX reply with key and element; BRPOPLPUSH with the element it moved, or with an error. */
  datatype Reply = Popped(client: ClientId, key: Key, element: Element) | Moved(client: ClientId, element: Element) | WrongType(client: ClientId) | Nil(client: ClientId)

  function First(s: seq<Element>, where: Where): Element
    requires s != []
  {
    if where == Head then s[0] else s[|s| - 1]
  }

  function Rest(s: seq<Element>, where: Where): seq<Element>
    requires s != []
  {
    if where == Head then s[1..] else s[..|s| - 1]
  }

  function Insert(s: seq<Element>, where: Where, e: Element): seq<Element>
  {
    if where == Head then [e] + s else s + [e]
  }

  /** Elements pushed one after the other. */
  function InsertAll(s: seq<Element>, where: Where, more: seq<Element>): seq<Element>
  {
    if more == [] then s else Insert(InsertAll(s, where, more[..|more| - 1]), where, more[|more| - 1])
  }

  lemma InsertAllNext(s: seq<Element>, where: Where, more: seq<Element>, j: nat)
    ensures InsertAll(s, where, more[..0]) == s
    ensures j < |more| ==> InsertAll(s, where, more[..j + 1]) == Insert(InsertAll(s, where, more[..j]), where, more[j])
  {
    if j < |more| { assert more[..j + 1][..j] == more[..j]; }
  }

  predicate HasElements(data: Data, k: Key)
  {
    k in data && !data[k].OtherValue? && data[k].elements != []
  }

  /** Can the destination of BRPOPLPUSH take the element? */
  predicate Accepts(data: Data, target: Option<Key>)
  {
    target.None? || target.value !in data || data[target.value].ListValue?
  }

  function WithElement(data: Data, t: Key, e: Element): Data
    requires Accepts(data, Some(t))
  {
    data[t := ListValue([e] + if t in data then data[t].elements else [])]
  }

  /** One client served from key k: its element leaves k and, with BRPOPLPUSH, goes to its target. */
  function DataAfter(data: Data, k: Key, cl: Client): Data
    requires HasElements(data, k)
  {
    var taken := data[k := data[k].(elements := Rest(data[k].elements, cl.where))];
    if !Accepts(taken, cl.target) then data
    else if cl.target.None? then taken
    else WithElement(taken, cl.target.value, First(data[k].elements, cl.where))
  }

  function ReplyTo(data: Data, k: Key, c: ClientId, cl: Client): Reply
    requires HasElements(data, k)
  {
    var e := First(data[k].elements, cl.where);
    if cl.target.None? then Popped(c, k, e)
    else if Accepts(data, cl.target) then Moved(c, e)
    else WrongType(c)
  }

  /** Clients served one after the other, as long as there are elements. */
  function DataAfterAll(data: Data, k: Key, clients: Clients, served: seq<ClientId>): Data
  {
    if served == [] then data
    else
      var n := |served| - 1;
      var before := DataAfterAll(data, k, clients, served[..n]);
      if HasElements(before, k) && served[n] in clients then DataAfter(before, k, clients[served[n]]) else before
  }

  function RepliesTo(data: Data, k: Key, clients: Clients, served: seq<ClientId>): seq<Reply>
  {
    if served == [] then []
    else
      var n := |served| - 1;
      var before := DataAfterAll(data, k, clients, served[..n]);
      RepliesTo(data, k, clients, served[..n]) +
      if HasElements(before, k) && served[n] in clients then [ReplyTo(before, k, served[n], clients[served[n]])] else []
  }

  lemma ServedOneMore(data: Data, k: Key, clients: Clients, served: seq<ClientId>, c: ClientId)
    requires c in clients && HasElements(DataAfterAll(data, k, clients, served), k)
    ensures var before := DataAfterAll(data, k, clients, served);
            && DataAfterAll(data, k, clients, served + [c]) == DataAfter(before, k, clients[c])
            && RepliesTo(data, k, clients, served + [c])
               == RepliesTo(data, k, clients, served) + [ReplyTo(before, k, c, clients[c])]
  {
    assert (served + [c])[..|served|] == served;
  }

  // ---------------------------------------------------------------- which end

  /** What is popped for a client, and what stays. */
  lemma PoppedEnd(s: seq<Element>)
    requires s != []
    ensures First(s, Head) == s[0] && Rest(s, Head) == s[1..]
    ensures First(s, Tail) == s[|s| - 1] && Rest(s, Tail) == s[..|s| - 1]
  {
  }

  /** One client served, by cases: a plain pop, a move to another key, a rotation of one list, a destination of the wrong type. */
  lemma ServeMeans(data: Data, k: Key, c: ClientId, cl: Client)
    requires HasElements(data, k)
    ensures var s := data[k].elements;
            var value, rest := if cl.where == Head then s[0] else s[|s| - 1], if cl.where == Head then s[1..] else s[..|s| - 1];
            var t := cl.target;
            var data', reply := DataAfter(data, k, cl), ReplyTo(data, k, c, cl);
            && (t == None ==> data' == data[k := data[k].(elements := rest)] && reply == Popped(c, k, value))
            && (t == Some(k) && data[k].ListValue? ==> data' == data[k := ListValue([value] + rest)] && reply == Moved(c, value))
            && (t.Some? && t.value != k && (t.value in data ==> data[t.value].ListValue?) ==>
                  && reply == Moved(c, value)
                  && data' == data[k := data[k].(elements := rest)][t.value :=
                       ListValue([value] + if t.value in data then data[t.value].elements else [])])
            && (t.Some? && t.value in data && !data[t.value].ListValue? ==> data' == data && reply == WrongType(c))
  {
    PoppedEnd(data[k].elements);
    hide First, Rest;
  }

  /** Clients blocked in BLPOP, or in BZPOPMIN, get the elements from the first on, in the order they are served. */
  lemma {:induction false} FirstComeFirstServed(data: Data, k: Key, clients: Clients, served: seq<ClientId>)
    requires k in data && !data[k].OtherValue? && |served| <= |data[k].elements|
    requires forall c :: c in served ==> c in clients && clients[c].where == Head && clients[c].target == None
    ensures DataAfterAll(data, k, clients, served) == data[k := data[k].(elements := data[k].elements[|served|..])]
    ensures |RepliesTo(data, k, clients, served)| == |served|
    ensures forall i :: 0 <= i < |served| ==> RepliesTo(data, k, clients, served)[i] == Popped(served[i], k, data[k].elements[i])
    decreases |served|
  {
    hide DataAfter, ReplyTo;
    var s := data[k].elements;
    if served == [] {
      assert s[0..] == s && data[k := data[k].(elements := s)] == data;
    } else {
      var n := |served| - 1;
      var prev, c := served[..n], served[n];
      FirstComeFirstServed(data, k, clients, prev);
      var before := DataAfterAll(data, k, clients, prev);
      assert before[k].elements == s[n..] && s[n..] != [] && s[n..][1..] == s[n + 1..];
      assert served == prev + [c];
      ServedOneMore(data, k, clients, prev, c);
      ServeMeans(before, k, c, clients[c]);
    }
  }

  /** Served from its own list, BRPOPLPUSH rotates it: the last element comes first, the order of the others is kept. */
  lemma Rotation(data: Data, k: Key, c: ClientId, cl: Client)
    requires HasElements(data, k) && data[k].ListValue? && cl.target == Some(k) && cl.where == Tail
    ensures var s, data' := data[k].elements, DataAfter(data, k, cl);
            && data'.Keys == data.Keys && data'[k].ListValue? && |data'[k].elements| == |s|
            && data'[k].elements[0] == s[|s| - 1]
            && forall i :: 0 <= i < |s| - 1 ==> data'[k].elements[i + 1] == s[i]
  {
    ServeMeans(data, k, c, cl);
  }

  /** Pushed at the tail, elements stand behind in their order; pushed at the head, they stand in front in reverse. */
  lemma {:induction false} PushedEnd(s: seq<Element>, more: seq<Element>)
    ensures InsertAll(s, Tail, more) == s + more
    ensures |InsertAll(s, Head, more)| == |more| + |s| && InsertAll(s, Head, more)[|more|..] == s
    ensures forall i :: 0 <= i < |more| ==> InsertAll(s, Head, more)[|more| - 1 - i] == more[i]
    decreases |more|
  {
    if more != [] {
      var n := |more| - 1;
      PushedEnd(s, more[..n]);
      assert more == more[..n] + [more[n]];
      var before, after := InsertAll(s, Head, more[..n]), InsertAll(s, Head, more);
      assert after == [more[n]] + before;
      forall i | 0 <= i < |more| ensures after[|more| - 1 - i] == more[i]
      {
        if i < n { assert before[n - 1 - i] == more[..n][i]; }
      }
    }
  }

  // ---------------------------------------------------------------- conservation

  /** A popped element pushed back at the end it came from restores the list. */
  lemma PushBack(s: seq<Element>, where: Where)
    requires s != []
    ensures Insert(Rest(s, where), where, First(s, where)) == s
    ensures multiset(s) == multiset(Rest(s, where)) + multiset{First(s, where)}
  {
    assert s == s[..|s| - 1] + [s[|s| - 1]];
    assert s == [s[0]] + s[1..];
  }

  function Elements(v: Value): multiset<Element>
  {
    if v.OtherValue? then multiset{} else multiset(v.elements)
  }

  /** All elements of all lists and sorted sets. */
  ghost function Contents(data: Data): multiset<Element>
    decreases |data|
  {
    if data == map[] then multiset{}
    else
      var k :| k in data;
      Fewer(data, k);
      Elements(data[k]) + Contents(data - {k})
  }

  lemma Fewer(data: Data, k: Key)
    requires k in data
    ensures |data - {k}| < |data|
  {
    assert (data - {k}).Keys == data.Keys - {k};
    assert |(data - {k}).Keys| < |data.Keys|;
  }

  lemma Swap(a: multiset<Element>, b: multiset<Element>, c: multiset<Element>)
    ensures a + (b + c) == b + (a + c)
  {
  }

  lemma Cancel(a: multiset<Element>, b: multiset<Element>, c: multiset<Element>, d: multiset<Element>)
    requires a + (b + c) == d + b
    ensures a + c == d
  {
    forall e ensures (a + c)[e] == d[e]
    {
      assert (a + (b + c))[e] == (d + b)[e];
    }
  }

  lemma TwoFewer(data: Data, j: Key, k: Key)
    requires j in data && k in data && j != k
    ensures k in data - {j} && (data - {j})[k] == data[k] && data - {j} - {k} == data - {k} - {j}
    ensures j in data - {k} && (data - {k})[j] == data[j]
  {
  }

  lemma {:induction false} ContentsAt(data: Data, k: Key)
    requires k in data
    ensures Contents(data) == Elements(data[k]) + Contents(data - {k})
    decreases |data|
  {
    var j :| j in data && Contents(data) == Elements(data[j]) + Contents(data - {j});
    hide Contents, Elements;
    if j != k {
      Fewer(data, j);
      Fewer(data, k);
      TwoFewer(data, j, k);
      ContentsAt(data - {j}, k);
      ContentsAt(data - {k}, j);
      Swap(Elements(data[j]), Elements(data[k]), Contents(data - {j} - {k}));
    }
  }

  lemma ContentsUpdate(data: Data, k: Key, v: Value)
    ensures Contents(data[k := v]) + (if k in data then Elements(data[k]) else multiset{}) == Contents(data) + Elements(v)
  {
    hide Contents, Elements;
    ContentsAt(data[k := v], k);
    if k in data {
      ContentsAt(data, k);
      assert data[k := v] - {k} == data - {k};
    } else {
      assert data[k := v] - {k} == data;
    }
  }

  /** The elements that left the data for good. */
  function Delivered(replies: seq<Reply>): multiset<Element>
  {
    if replies == [] then multiset{}
    else
      var last := replies[|replies| - 1];
      Delivered(replies[..|replies| - 1]) + if last.Popped? then multiset{last.element} else multiset{}
  }

  lemma DeliveredOneMore(replies: seq<Reply>, r: Reply)
    ensures Delivered(replies + [r]) == Delivered(replies) + if r.Popped? then multiset{r.element} else multiset{}
  {
    assert (replies + [r])[..|replies|] == replies;
  }

  lemma {:induction false} DeliveredTogether(a: seq<Reply>, b: seq<Reply>)
    ensures Delivered(a + b) == Delivered(a) + Delivered(b)
    decreases |b|
  {
    if b == [] {
      assert a + b == a;
    } else {
      var n := |b| - 1;
      DeliveredTogether(a, b[..n]);
      assert a + b == (a + b[..n]) + [b[n]];
      DeliveredOneMore(a + b[..n], b[n]);
    }
  }

  lemma TakeConserves(data: Data, k: Key, where: Where)
    requires HasElements(data, k)
    ensures Contents(data) == Contents(data[k := data[k].(elements := Rest(data[k].elements, where))]) + multiset{First(data[k].elements, where)}
  {
    hide Contents;
    PushBack(data[k].elements, where);
    var rest := Rest(data[k].elements, where);
    ContentsUpdate(data, k, data[k].(elements := rest));
    Cancel(Contents(data[k := data[k].(elements := rest)]), multiset(rest), multiset{First(data[k].elements, where)}, Contents(data));
  }

  lemma PutConserves(data: Data, t: Key, e: Element)
    requires Accepts(data, Some(t))
    ensures Contents(WithElement(data, t, e)) == Contents(data) + multiset{e}
  {
    hide Contents;
    var was := if t in data then data[t].elements else [];
    ContentsUpdate(data, t, ListValue([e] + was));
    assert multiset([e] + was) == multiset{e} + multiset(was);
    Cancel(Contents(data), multiset(was), multiset{e}, Contents(WithElement(data, t, e)));
  }

  /** Serving a client delivers its element once, moves it to the target, or puts it back where it was. */
  lemma ServeConserves(data: Data, k: Key, c: ClientId, cl: Client)
    requires HasElements(data, k)
    ensures var r := ReplyTo(data, k, c, cl);
            && Contents(data) == Contents(DataAfter(data, k, cl)) + (if r.Popped? then multiset{r.element} else multiset{})
            && (r.WrongType? <==> !Accepts(data, cl.target)) && (r.WrongType? ==> DataAfter(data, k, cl) == data)
  {
    hide Contents, First, Rest, WithElement;
    TakeConserves(data, k, cl.where);
    if Accepts(data, cl.target) && cl.target.Some? {
      var taken := data[k := data[k].(elements := Rest(data[k].elements, cl.where))];
      PutConserves(taken, cl.target.value, First(data[k].elements, cl.where));
    }
  }

  /** Over any number of clients: what is in the lists and what was delivered is what was in the lists. */
  lemma {:induction false} AllConserved(data: Data, k: Key, clients: Clients, served: seq<ClientId>)
    ensures Contents(DataAfterAll(data, k, clients, served)) + Delivered(RepliesTo(data, k, clients, served)) == Contents(data)
    decreases |served|
  {
    if served != [] {
      var n := |served| - 1;
      AllConserved(data, k, clients, served[..n]);
      var before := DataAfterAll(data, k, clients, served[..n]);
      if HasElements(before, k) && served[n] in clients {
        ServeConserves(before, k, served[n], clients[served[n]]);
        DeliveredOneMore(RepliesTo(data, k, clients, served[..n]), ReplyTo(before, k, served[n], clients[served[n]]));
      } else {
        assert RepliesTo(data, k, clients, served) == RepliesTo(data, k, clients, served[..n]);
      }
    }
  }

  /** Dropping a key that was used up loses nothing. */
  lemma DropEmpty(data: Data, k: Key)
    requires k in data && Empty(data[k])
    ensures Contents(data - {k}) == Contents(data)
  {
    ContentsAt(data, k);
  }
}
