/** The keyed g.box nodes of dc.boxPlot and the enter/update/exit pass that
    plotData runs over them on every render and redraw. */
module Glyphs {
  import opened ChartData
  import opened Selection

  /** One g.box node: its identity as a node, the datum bound to it and the
      look the selection feedback last gave it. */
  datatype Glyph<K, V> = Glyph(id: nat, datum: Record<K, V>, highlight: Highlight)

  /** The keys of a sequence of records. */
  function KeysOf<K(==), V>(data: seq<Record<K, V>>): set<K> {
    set t | 0 <= t < |data| :: data[t].key
  }

  ghost predicate UniqueKeys<K, V>(data: seq<Record<K, V>>) {
    forall s, t :: 0 <= s < t < |data| ==> data[s].key != data[t].key
  }

  lemma KeysOfCons<K, V>(data: seq<Record<K, V>>)
    requires data != []
    ensures KeysOf(data) == {data[0].key} + KeysOf(data[1..])
  {
    forall k | k in KeysOf(data)
      ensures k in {data[0].key} + KeysOf(data[1..])
    {
      var t :| 0 <= t < |data| && data[t].key == k;
      if t > 0 {
        assert data[1..][t - 1] == data[t];
      }
    }
  }

  lemma KeysOfEmpty<K, V>(data: seq<Record<K, V>>)
    ensures KeysOf(data) == {} <==> data == []
  {
    if data != [] {
      assert data[0].key in KeysOf(data);
    }
  }

  /** The first record of data that carries the key k. */
  function FirstWithKey<K(==), V>(data: seq<Record<K, V>>, k: K): (r: Record<K, V>)
    requires k in KeysOf(data)
    ensures r.key == k && r in data
    decreases |data|
  {
    KeysOfCons(data);
    if data[0].key == k then data[0] else FirstWithKey(data[1..], k)
  }

  /** No record before FirstWithKey(data, k) carries the key k. */
  lemma {:induction false} FirstWithKeyIsFirst<K, V>(data: seq<Record<K, V>>, k: K)
    requires k in KeysOf(data)
    ensures exists t ::
      0 <= t < |data| && data[t] == FirstWithKey(data, k) && (forall s :: 0 <= s < t ==> data[s].key != k)
    decreases |data|
  {
    KeysOfCons(data);
    if data[0].key != k {
      FirstWithKeyIsFirst(data[1..], k);
      var t :| 0 <= t < |data[1..]| && data[1..][t] == FirstWithKey(data[1..], k) &&
        forall s :: 0 <= s < t ==> data[1..][s].key != k;
      assert data[t + 1] == FirstWithKey(data, k);
      forall s | 0 < s < t + 1
        ensures data[s].key != k
      {
        assert data[s] == data[1..][s - 1];
      }
    }
  }

  /** r is a subsequence of s: s with some elements removed, order kept. */
  ghost predicate Subsequence<T>(r: seq<T>, s: seq<T>)
    decreases |s|
  {
    r == [] || (s != [] && ((r[0] == s[0] && Subsequence(r[1..], s[1..])) || Subsequence(r, s[1..])))
  }

  lemma {:induction false} SubsequenceTransitive<T>(a: seq<T>, b: seq<T>, c: seq<T>)
    requires Subsequence(a, b) && Subsequence(b, c)
    ensures Subsequence(a, c)
    decreases |b| + |c|
  {
    if a != [] {
      if Subsequence(b, c[1..]) {
        SubsequenceTransitive(a, b, c[1..]);
      } else if a[0] == b[0] && Subsequence(a[1..], b[1..]) {
        SubsequenceTransitive(a[1..], b[1..], c[1..]);
      } else {
        SubsequenceTransitive(a, b[1..], c[1..]);
      }
    }
  }

  /** The records the keyed join binds: d3's selection.data gives a node to
      the first record of each key only, and to none whose key is in seen.
      BoundInOrder shows they keep their order in the data. */
  function Bound<K(==), V>(data: seq<Record<K, V>>, seen: set<K>): (r: seq<Record<K, V>>)
    ensures UniqueKeys(r)
    ensures KeysOf(r) == KeysOf(data) - seen
    ensures forall t :: 0 <= t < |r| ==> r[t].key in KeysOf(data) && r[t] == FirstWithKey(data, r[t].key)
    decreases |data|
  {
    if data == [] then []
    else
      KeysOfCons(data);
      var rest := Bound(data[1..], seen + {data[0].key});
      var r := if data[0].key in seen then rest else [data[0]] + rest;
      assert data[0].key !in seen ==> KeysOf(r) == {data[0].key} + KeysOf(rest) by {
        if data[0].key !in seen {
          KeysOfCons(r);
          assert r[1..] == rest;
        }
      }
      r
  }

  /** The records of s whose key is not in keys. */
  function Unmatched<K(==), V>(s: seq<Record<K, V>>, keys: set<K>): (r: seq<Record<K, V>>)
    requires UniqueKeys(s)
    ensures UniqueKeys(r)
    ensures KeysOf(r) == KeysOf(s) - keys
    ensures forall t :: 0 <= t < |r| ==> r[t] in s
    decreases |s|
  {
    if s == [] then []
    else
      KeysOfCons(s);
      var rest := Unmatched(s[1..], keys);
      if s[0].key !in keys then
        var r := [s[0]] + rest;
        assert r[1..] == rest;
        KeysOfCons(r);
        r
      else rest
  }

  lemma {:induction false} BoundInOrder<K, V>(data: seq<Record<K, V>>, seen: set<K>)
    ensures Subsequence(Bound(data, seen), data)
    decreases |data|
  {
    if data != [] {
      BoundInOrder(data[1..], seen + {data[0].key});
      var r := Bound(data, seen);
      if data[0].key !in seen {
        assert r[0] == data[0] && r[1..] == Bound(data[1..], seen + {data[0].key});
      }
    }
  }

  lemma {:induction false} UnmatchedInOrder<K, V>(s: seq<Record<K, V>>, keys: set<K>)
    requires UniqueKeys(s)
    ensures Subsequence(Unmatched(s, keys), s)
    decreases |s|
  {
    if s != [] {
      UnmatchedInOrder(s[1..], keys);
      var r := Unmatched(s, keys);
      if s[0].key !in keys {
        assert r[0] == s[0] && r[1..] == Unmatched(s[1..], keys);
      }
    }
  }

  /** The three parts of a keyed join: records that get a new node (in data
      order), the record each existing node is matched to, and the keys whose
      node goes. */
  datatype Join<K, V> = Join(enter: seq<Record<K, V>>, update: map<K, Record<K, V>>, exit: set<K>)

  /** selection.data(data, d => d.key) over nodes with the keys nodeKeys. */
  function DataJoin<K(==), V>(nodeKeys: set<K>, data: seq<Record<K, V>>): (j: Join<K, V>)
    ensures UniqueKeys(j.enter)
    ensures KeysOf(j.enter) == KeysOf(data) - nodeKeys
    ensures j.update.Keys == KeysOf(data) * nodeKeys
    ensures j.exit == nodeKeys - KeysOf(data)
    ensures forall t :: 0 <= t < |j.enter| ==>
      j.enter[t].key in KeysOf(data) && j.enter[t] == FirstWithKey(data, j.enter[t].key)
    ensures forall k :: k in j.update ==> j.update[k] == FirstWithKey(data, k)
  {
    var enter := Unmatched(Bound(data, {}), nodeKeys);
    var update := map k | k in KeysOf(data) * nodeKeys :: FirstWithKey(data, k);
    Join(enter, update, nodeKeys - KeysOf(data))
  }

  /** The entering records keep their order in the data, so new nodes are
      created, and numbered, in data order. */
  lemma EnterInDataOrder<K, V>(nodeKeys: set<K>, data: seq<Record<K, V>>)
    ensures Subsequence(DataJoin(nodeKeys, data).enter, data)
  {
    BoundInOrder(data, {});
    UnmatchedInOrder(Bound(data, {}), nodeKeys);
    SubsequenceTransitive(DataJoin(nodeKeys, data).enter, Bound(data, {}), data);
  }

  /** Every key of the data and of the nodes is in exactly one part. */
  lemma JoinCoversKeys<K, V>(nodeKeys: set<K>, data: seq<Record<K, V>>)
    ensures var j := DataJoin(nodeKeys, data);
      KeysOf(j.enter) + j.update.Keys == KeysOf(data) &&
      j.update.Keys + j.exit == nodeKeys &&
      KeysOf(j.enter) !! j.update.Keys && KeysOf(j.enter) !! j.exit && j.update.Keys !! j.exit
  {
  }

  /** Joining the data a render just drew creates and removes nothing. */
  lemma RejoinOnlyUpdates<K, V>(data: seq<Record<K, V>>)
    ensures DataJoin(KeysOf(data), data).enter == []
    ensures DataJoin(KeysOf(data), data).exit == {}
  {
    KeysOfEmpty(DataJoin(KeysOf(data), data).enter);
  }

  /** Nodes A, B, C joined with data B, C, D: D enters, B and C are
      updated, A exits. */
  lemma JoinExample()
    ensures var j := DataJoin({'A', 'B', 'C'}, ExampleData());
      j.enter == [Record('D', 4)] && j.update == map['B' := Record('B', 2), 'C' := Record('C', 3)] && j.exit == {'A'}
  {
    ExampleKeys();
    ExampleBound();
    ExampleEnter();
    ExampleUpdate();
  }

  function ExampleData(): seq<Record<char, int>> {
    [Record('B', 2), Record('C', 3), Record('D', 4)]
  }

  lemma ExampleKeys()
    ensures KeysOf(ExampleData()) == {'B', 'C', 'D'}
  {
    var data := ExampleData();
    assert data[0].key == 'B' && data[1].key == 'C' && data[2].key == 'D';
  }

  lemma ExampleBound()
    ensures Bound(ExampleData(), {}) == ExampleData()
  {
    var data := ExampleData();
    assert data[1..] == [Record('C', 3), Record('D', 4)] && data[1..][1..] == [Record('D', 4)];
    assert [Record('D', 4)][1..] == [];
  }

  lemma ExampleEnter()
    ensures Unmatched(ExampleData(), {'A', 'B', 'C'}) == [Record('D', 4)]
  {
    var data := ExampleData();
    ExampleBound();
    assert data[1..] == [Record('C', 3), Record('D', 4)] && data[1..][1..] == [Record('D', 4)];
    assert [Record('D', 4)][1..] == [];
  }

  lemma ExampleUpdate()
    ensures DataJoin({'A', 'B', 'C'}, ExampleData()).update == map['B' := Record('B', 2), 'C' := Record('C', 3)]
  {
    var data := ExampleData();
    ExampleKeys();
    assert {'B', 'C', 'D'} * {'A', 'B', 'C'} == {'B', 'C'};
    assert data[1..] == [Record('C', 3), Record('D', 4)];
    assert FirstWithKey(data, 'B') == Record('B', 2);
    assert FirstWithKey(data, 'C') == Record('C', 3);
  }

  /** The keys the chart draws: those of the groups with a non-empty sample. */
  lemma RenderedKeys<K, V>(groups: seq<Record<K, V>>, valueOf: Record<K, V> -> seq<real>)
    ensures KeysOf(Renderable(groups, valueOf)) ==
      set t | 0 <= t < |groups| && |valueOf(groups[t])| != 0 :: groups[t].key
  {
    var data := Renderable(groups, valueOf);
    forall k | k in KeysOf(data)
      ensures exists t :: 0 <= t < |groups| && |valueOf(groups[t])| != 0 && groups[t].key == k
    {
      var s :| 0 <= s < |data| && data[s].key == k;
      assert data[s] in groups;
    }
    forall t | 0 <= t < |groups| && |valueOf(groups[t])| != 0
      ensures groups[t].key in KeysOf(data)
    {
      assert groups[t] in data;
    }
  }

  /** A node map is well formed when every node is filed under the key of
      its datum and the nodes have distinct identities, all issued before
      next. */
  ghost predicate WellFormed<K, V>(m: map<K, Glyph<K, V>>, next: nat) {
    (forall k :: k in m ==> m[k].datum.key == k && m[k].id < next) &&
    (forall k, k' :: k in m && k' in m && k != k' ==> m[k].id != m[k'].id)
  }

  /** b holds the same nodes as a, under the same keys. */
  ghost predicate SameNodes<K, V>(a: map<K, Glyph<K, V>>, b: map<K, Glyph<K, V>>) {
    a.Keys == b.Keys &&
    forall k :: k in a ==> b[k].id == a[k].id && b[k].datum.key == a[k].datum.key
  }

  lemma SameNodesWellFormed<K, V>(a: map<K, Glyph<K, V>>, b: map<K, Glyph<K, V>>, next: nat)
    requires WellFormed(a, next) && SameNodes(a, b)
    ensures WellFormed(b, next)
  {
  }

  /** The chart body's g.box nodes, as the retained glyph per key. */
  class BoxLayer<K(==), V> {
    var glyphs: map<K, Glyph<K, V>>
    /** The identity the next appended node receives. */
    var nextId: nat

    ghost predicate Valid()
      reads this
    {
      WellFormed(glyphs, nextId)
    }

    /** The nodes are those a render of the groups under these filters
        draws: one per key of the chart data, bound to that key's first
        record and given its selection look. */
    ghost predicate Drawn(groups: seq<Record<K, V>>, valueOf: Record<K, V> -> seq<real>, filters: set<K>)
      reads this
    {
      glyphs.Keys == KeysOf(Renderable(groups, valueOf)) &&
      forall k :: k in glyphs ==>
        glyphs[k].datum == FirstWithKey(Renderable(groups, valueOf), k) && glyphs[k].highlight == Classify(filters, k)
    }

    constructor ()
      ensures Valid() && glyphs == map[] && nextId == 0
    {
      glyphs := map[];
      nextId := 0;
    }

    /** renderBoxes: append a new node for each entering record. */
    method RenderBoxes(enter: seq<Record<K, V>>)
      requires Valid() && UniqueKeys(enter) && KeysOf(enter) !! glyphs.Keys
      modifies this
      ensures Valid()
      ensures nextId == old(nextId) + |enter|
      ensures glyphs.Keys == old(glyphs.Keys) + KeysOf(enter)
      ensures forall k :: k in old(glyphs) ==> glyphs[k] == old(glyphs[k])
      ensures forall t :: 0 <= t < |enter| ==> glyphs[enter[t].key] == Glyph(old(nextId) + t, enter[t], Reset)
    {
      var t := 0;
      while t < |enter|
        invariant 0 <= t <= |enter|
        invariant Valid()
        invariant nextId == old(nextId) + t
        invariant glyphs.Keys == old(glyphs.Keys) + set s | 0 <= s < t :: enter[s].key
        invariant forall k :: k in old(glyphs) ==> glyphs[k] == old(glyphs[k])
        invariant forall s :: 0 <= s < t ==> glyphs[enter[s].key] == Glyph(old(nextId) + s, enter[s], Reset)
      {
        assert enter[t].key in KeysOf(enter);
        glyphs := glyphs[enter[t].key := Glyph(nextId, enter[t], Reset)];
        nextId := nextId + 1;
        t := t + 1;
      }
    }

    /** updateBoxes: every matched node keeps its identity and look and is
        bound to its new record. */
    method UpdateBoxes(update: map<K, Record<K, V>>)
      requires Valid() && update.Keys <= glyphs.Keys
      requires forall k :: k in update ==> update[k].key == k
      modifies this
      ensures Valid()
      ensures nextId == old(nextId) && glyphs.Keys == old(glyphs.Keys)
      ensures forall k :: k in glyphs ==>
        glyphs[k] == if k in update then old(glyphs[k]).(datum := update[k]) else old(glyphs[k])
    {
      glyphs := map k | k in glyphs :: if k in update then glyphs[k].(datum := update[k]) else glyphs[k];
      SameNodesWellFormed(old(glyphs), glyphs, nextId);
    }

    /** removeBoxes: the exiting nodes are removed. */
    method RemoveBoxes(exit: set<K>)
      requires Valid()
      modifies this
      ensures Valid()
      ensures nextId == old(nextId) && glyphs == old(glyphs) - exit
    {
      glyphs := glyphs - exit;
    }

    /** fadeDeselectedArea: with an active filter every node is highlighted
        or faded by whether its key is selected; without one every node is
        reset. */
    method FadeDeselectedArea(filters: set<K>)
      requires Valid()
      modifies this
      ensures Valid()
      ensures nextId == old(nextId) && glyphs.Keys == old(glyphs.Keys)
      ensures forall k :: k in glyphs ==> glyphs[k] == old(glyphs[k]).(highlight := Classify(filters, k))
    {
      var todo := glyphs.Keys;
      if HasFilter(filters) {
        while todo != {}
          invariant todo <= glyphs.Keys == old(glyphs.Keys) && nextId == old(nextId)
          invariant forall k :: k in glyphs ==>
            glyphs[k] == if k in todo then old(glyphs[k]) else old(glyphs[k]).(highlight := Classify(filters, k))
          decreases todo
        {
          var k :| k in todo;
          if IsSelectedNode(filters, k) {
            glyphs := glyphs[k := glyphs[k].(highlight := Highlighted)];
          } else {
            glyphs := glyphs[k := glyphs[k].(highlight := Faded)];
          }
          todo := todo - {k};
        }
      } else {
        while todo != {}
          invariant todo <= glyphs.Keys == old(glyphs.Keys) && nextId == old(nextId)
          invariant forall k :: k in glyphs ==>
            glyphs[k] == if k in todo then old(glyphs[k]) else old(glyphs[k]).(highlight := Classify(filters, k))
          decreases todo
        {
          var k :| k in todo;
          glyphs := glyphs[k := glyphs[k].(highlight := Reset)];
          todo := todo - {k};
        }
      }
      SameNodesWellFormed(old(glyphs), glyphs, nextId);
    }

    /** The keyed join of lines 92 to 96: enter, update and exit against
        the records of data. Afterwards there is one node per key of data,
        bound to the first record of that key; nodes whose key stays keep
        their identity and look, the others are new and unstyled. */
    method JoinBoxes(data: seq<Record<K, V>>)
      requires Valid()
      modifies this
      ensures Valid()
      ensures glyphs.Keys == KeysOf(data)
      ensures forall k :: k in glyphs ==> glyphs[k].datum == FirstWithKey(data, k)
      ensures forall k :: k in glyphs && k in old(glyphs) ==>
        glyphs[k].id == old(glyphs[k].id) && glyphs[k].highlight == old(glyphs[k].highlight)
      ensures forall k :: k in glyphs && k !in old(glyphs) ==>
        old(nextId) <= glyphs[k].id && glyphs[k].highlight == Reset
    {
      var join := DataJoin(glyphs.Keys, data);
      RenderBoxes(join.enter);
      ghost var entered := glyphs;
      UpdateBoxes(join.update);
      RemoveBoxes(join.exit);
      forall k | k in glyphs && k !in old(glyphs)
        ensures glyphs[k].datum == FirstWithKey(data, k)
        ensures old(nextId) <= glyphs[k].id && glyphs[k].highlight == Reset
      {
        var t :| 0 <= t < |join.enter| && join.enter[t].key == k;
        assert entered[k] == Glyph(old(nextId) + t, join.enter[t], Reset);
      }
    }

    /** plotData: join the chart data to the nodes by key, then refresh the
        selection feedback. Afterwards there is one node per key of the
        groups with a non-empty sample; drawing what is already drawn
        changes nothing. */
    method PlotData(groups: seq<Record<K, V>>, valueOf: Record<K, V> -> seq<real>, filters: set<K>)
      requires Valid()
      modifies this
      ensures Valid()
      ensures Drawn(groups, valueOf, filters)
      ensures glyphs.Keys == set t | 0 <= t < |groups| && |valueOf(groups[t])| != 0 :: groups[t].key
      ensures forall k :: k in glyphs ==> glyphs[k].datum in groups && |valueOf(glyphs[k].datum)| != 0
      ensures forall k :: k in glyphs && k in old(glyphs) ==> glyphs[k].id == old(glyphs[k].id)
      ensures forall k :: k in glyphs && k !in old(glyphs) ==> old(nextId) <= glyphs[k].id
      ensures old(Drawn(groups, valueOf, filters)) ==> glyphs == old(glyphs)
    {
      var data := Renderable(groups, valueOf);
      RenderedKeys(groups, valueOf);
      JoinBoxes(data);
      FadeDeselectedArea(filters);
      if old(Drawn(groups, valueOf, filters)) {
        SameGlyphs(old(glyphs), glyphs);
      }
    }
  }

  /** Two node maps with the same keys whose nodes agree field by field are
      the same. */
  lemma SameGlyphs<K, V>(a: map<K, Glyph<K, V>>, b: map<K, Glyph<K, V>>)
    requires a.Keys == b.Keys
    requires forall k :: k in a ==> a[k].id == b[k].id && a[k].datum == b[k].datum && a[k].highlight == b[k].highlight
    ensures a == b
  {
  }
}
