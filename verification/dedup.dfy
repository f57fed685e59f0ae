/** The duplicate-removing window of lib/dedup.js.

    Each topic owns a priority set: a map from entry id to the entry it was
    first seen with and a score (the entry's timestamp). A batch of entries
    yields those whose id the window does not hold yet, inserts them, and
    then evicts everything scored below the batch's earliest timestamp. */
module Dedup {

  /** JavaScript's `Number.MAX_VALUE`, (2^53 - 1) * 2^971, the starting
      point of the search for a batch's earliest timestamp. */
  const NumberMaxValue: int := 0xffffffff_fffff800_00000000_00000000_00000000_00000000_00000000_00000000_00000000_00000000_00000000_00000000_00000000_00000000_00000000_00000000_00000000_00000000_00000000_00000000_00000000_00000000_00000000_00000000_00000000_00000000_00000000_00000000_00000000_00000000_00000000_00000000

  /** A feed entry as handed to `newEntries` */
  datatype Entry = Entry(id: string, timestamp: int, datum: string)

  /** What the priority set keeps per id: the entry first seen and its score */
  datatype Item = Item(datum: Entry, score: int)

  /** One topic's priority set */
  type Window = map<string, Item>

  /** All topics' windows, created lazily */
  type Topics = map<string, Window>

  // ---------------------------------------------------------------------
  // PrioritySet

  /** `PrioritySet.add`: (re)binds `id` */
  function Add(w: Window, id: string, datum: Entry, score: int): (r: Window)
    ensures Includes(r, id) && r[id] == Item(datum, score)
    ensures forall k :: k != id ==> (k in r <==> k in w)
    ensures forall k :: k in w && k != id ==> r[k] == w[k]
  {
    w[id := Item(datum, score)]
  }

  /** `PrioritySet.includes`: the stored item, which as an object is
      always truthy, so an id is held exactly when it has an item */
  function Includes(w: Window, id: string): (held: bool)
    ensures held <==> id in w.Keys
  {
    id in w
  }

  /** `PrioritySet.removeLessThan`: drops every item scored below `score` */
  function RemoveLessThan(w: Window, score: int): (r: Window)
    ensures forall k :: k in r <==> k in w && w[k].score >= score
    ensures forall k :: k in r ==> r[k] == w[k]
  {
    map k | k in w && !(w[k].score < score) :: w[k]
  }

  /** `order` lists every key of `w` exactly once, by ascending score */
  ghost predicate ScoreOrder(w: Window, order: seq<string>) {
    && |order| == |w|
    && (forall i :: 0 <= i < |order| ==> order[i] in w)
    && (forall k :: k in w ==> k in order)
    && (forall i, j :: 0 <= i < j < |order| ==> order[i] != order[j])
    && (forall i, j :: 0 <= i < j < |order| ==> w[order[i]].score <= w[order[j]].score)
  }

  /** The data of `w` read along `order` */
  function DataAlong(w: Window, order: seq<string>): (r: seq<Entry>)
    requires forall i :: 0 <= i < |order| ==> order[i] in w
    ensures |r| == |order|
    ensures forall i :: 0 <= i < |order| ==> r[i] == w[order[i]].datum
  {
    seq(|order|, i requires 0 <= i < |order| => w[order[i]].datum)
  }

  /** A non-empty set of keys has a lowest-scored member */
  lemma {:induction false} LowestScoreExists(w: Window, keys: set<string>)
    requires keys != {} && keys <= w.Keys
    ensures exists k :: k in keys && forall k' :: k' in keys ==> w[k].score <= w[k'].score
    decreases |keys|
  {
    var x :| x in keys;
    if keys != {x} {
      var rest := keys - {x};
      LowestScoreExists(w, rest);
      var m :| m in rest && forall k' :: k' in rest ==> w[m].score <= w[k'].score;
      if w[x].score <= w[m].score {
        assert forall k' :: k' in keys ==> w[x].score <= w[k'].score;
      } else {
        assert forall k' :: k' in keys ==> w[m].score <= w[k'].score;
      }
    } else {
      assert forall k' :: k' in keys ==> w[x].score <= w[k'].score;
    }
  }

  /** `order` is a score-ordered listing of the keys of `w` outside `rest`,
      each scored no higher than any key still in `rest` */
  ghost predicate OrderedSoFar(w: Window, order: seq<string>, rest: set<string>) {
    && rest <= w.Keys
    && |order| + |rest| == |w.Keys|
    && (forall i :: 0 <= i < |order| ==> order[i] in w && order[i] !in rest)
    && (forall k :: k in w ==> k in rest || k in order)
    && (forall i, j :: 0 <= i < j < |order| ==> order[i] != order[j])
    && (forall i, j :: 0 <= i < j < |order| ==> w[order[i]].score <= w[order[j]].score)
    && (forall i, k :: 0 <= i < |order| && k in rest ==> w[order[i]].score <= w[k].score)
  }

  /** Moving a lowest-scored key of `rest` to the end of `order` keeps it ordered */
  lemma TakeLowest(w: Window, order: seq<string>, rest: set<string>, k: string)
    requires OrderedSoFar(w, order, rest)
    requires k in rest && forall k' :: k' in rest ==> w[k].score <= w[k'].score
    ensures OrderedSoFar(w, order + [k], rest - {k})
  {
    var order' := order + [k];
    assert forall i :: 0 <= i < |order| ==> order'[i] == order[i];
    assert order'[|order|] == k;
  }

  /** `PrioritySet.all`: the retained data, scores stripped, ascending by
      score. Ties between equal scores may come out in any order, as they
      may from the comparator sort of the source. */
  method All(w: Window) returns (data: seq<Entry>)
    ensures |data| == |w|
    ensures exists order :: ScoreOrder(w, order) && data == DataAlong(w, order)
  {
    var rest := w.Keys;
    data := [];
    ghost var order: seq<string> := [];
    while rest != {}
      invariant OrderedSoFar(w, order, rest)
      invariant data == DataAlong(w, order)
      decreases |rest|
    {
      LowestScoreExists(w, rest);
      var k :| k in rest && forall k' :: k' in rest ==> w[k].score <= w[k'].score;
      TakeLowest(w, order, rest, k);
      order := order + [k];
      data := data + [w[k].datum];
      rest := rest - {k};
    }
    assert ScoreOrder(w, order);
  }

  // ---------------------------------------------------------------------
  // Dedup

  /** The result of `newEntries`: the updated topics and the new entries */
  datatype Batch = Batch(topics: Topics, newer: seq<Entry>)

  /** The window a topic has before a call: empty if it has none yet */
  function WindowOf(topics: Topics, topic: string): Window {
    if topic in topics then topics[topic] else map[]
  }

  /** `_topicSet`: a topic's window, created empty on first use */
  function TopicSet(topics: Topics, topic: string): (r: (Topics, Window))
    ensures r.0 == topics[topic := r.1]
    ensures r.1 == WindowOf(topics, topic)
  {
    if topic in topics then (topics, topics[topic])
    else (topics[topic := map[]], map[])
  }

  /** The running state of the `forEach` over a batch */
  datatype Pass = Pass(window: Window, earliest: int, newer: seq<Entry>)

  /** One iteration of the `forEach`: lower the earliest timestamp, and
      insert and report the entry when its id is not in the window yet. */
  function Visit(p: Pass, e: Entry): (r: Pass)
    ensures r.window.Keys == p.window.Keys + {e.id}
    ensures forall k :: k in p.window ==> r.window[k] == p.window[k]
    ensures r.earliest <= p.earliest && r.earliest <= e.timestamp
    ensures r.earliest == p.earliest || r.earliest == e.timestamp
    ensures e.id in p.window ==> r.newer == p.newer
    ensures e.id !in p.window ==> r.newer == p.newer + [e] && r.window[e.id] == Item(e, e.timestamp)
  {
    var earliest := if e.timestamp < p.earliest then e.timestamp else p.earliest;
    if Includes(p.window, e.id) then Pass(p.window, earliest, p.newer)
    else Pass(Add(p.window, e.id, e, e.timestamp), earliest, p.newer + [e])
  }

  /** The `forEach` over `es`, first entry first, starting from window `w` */
  function Absorb(w: Window, es: seq<Entry>): Pass
    decreases |es|
  {
    if es == [] then Pass(w, NumberMaxValue, [])
    else Visit(Absorb(w, es[..|es| - 1]), es[|es| - 1])
  }

  /** The earliest timestamp of a batch, or `NumberMaxValue` for none lower */
  function Earliest(es: seq<Entry>): (m: int)
    ensures m <= NumberMaxValue
    ensures forall i :: 0 <= i < |es| ==> m <= es[i].timestamp
    ensures m == NumberMaxValue || exists i :: 0 <= i < |es| && es[i].timestamp == m
    decreases |es|
  {
    if es == [] then NumberMaxValue
    else
      var m := Earliest(es[..|es| - 1]);
      var t := es[|es| - 1].timestamp;
      assert forall i :: 0 <= i < |es| - 1 ==> es[..|es| - 1][i] == es[i];
      if t < m then t else m
  }

  /** The ids occurring in a batch */
  function Ids(es: seq<Entry>): set<string> {
    set i | 0 <= i < |es| :: es[i].id
  }

  /** Entry `i` is the first occurrence of an id the window does not hold */
  predicate IsFirstSighting(w: Window, es: seq<Entry>, i: int)
    requires 0 <= i < |es|
  {
    es[i].id !in w && forall j :: 0 <= j < i ==> es[j].id != es[i].id
  }

  /** The entries of `es` that are first sightings, in input order */
  function FirstSightings(w: Window, es: seq<Entry>): seq<Entry>
    decreases |es|
  {
    if es == [] then []
    else
      var n := |es| - 1;
      FirstSightings(w, es[..n]) + (if IsFirstSighting(w, es, n) then [es[n]] else [])
  }

  /** The last entry of a batch adds its id to those of the rest */
  lemma IdsOfPrefix(es: seq<Entry>)
    requires es != []
    ensures Ids(es) == Ids(es[..|es| - 1]) + {es[|es| - 1].id}
  {
    var n := |es| - 1;
    var pre := es[..n];
    forall k | k in Ids(es) ensures k in Ids(pre) + {es[n].id} {
      var i :| 0 <= i < |es| && es[i].id == k;
      if i < n { assert pre[i].id == k; }
    }
    forall k | k in Ids(pre) ensures k in Ids(es) {
      var i :| 0 <= i < n && pre[i].id == k;
      assert es[i].id == k;
    }
  }

  /** The earliest timestamp found by a pass is the batch's earliest */
  lemma {:induction false} AbsorbEarliest(w: Window, es: seq<Entry>)
    ensures Absorb(w, es).earliest == Earliest(es)
    decreases |es|
  {
    if es != [] {
      AbsorbEarliest(w, es[..|es| - 1]);
    }
  }

  /** A pass inserts exactly the batch's ids and leaves held items alone */
  lemma {:induction false} AbsorbKeys(w: Window, es: seq<Entry>)
    ensures Absorb(w, es).window.Keys == w.Keys + Ids(es)
    ensures forall k :: k in w ==> Absorb(w, es).window[k] == w[k]
    decreases |es|
  {
    if es != [] {
      AbsorbKeys(w, es[..|es| - 1]);
      IdsOfPrefix(es);
    }
  }

  /** Entry `n` is held by the window before its turn unless it is a first sighting */
  lemma HeldBeforeTurn(w: Window, es: seq<Entry>)
    requires es != []
    ensures var n := |es| - 1;
      Includes(Absorb(w, es[..n]).window, es[n].id) <==> !IsFirstSighting(w, es, n)
  {
    var n := |es| - 1;
    var pre := es[..n];
    AbsorbKeys(w, pre);
    if !IsFirstSighting(w, es, n) && es[n].id !in w {
      var j :| 0 <= j < n && es[j].id == es[n].id;
      assert pre[j].id == es[n].id;
    }
  }

  /** The entries a pass reports are the batch's first sightings */
  lemma {:induction false} AbsorbNewer(w: Window, es: seq<Entry>)
    ensures Absorb(w, es).newer == FirstSightings(w, es)
    decreases |es|
  {
    if es != [] {
      AbsorbNewer(w, es[..|es| - 1]);
      HeldBeforeTurn(w, es);
    }
  }

  /** A first sighting is stored with its own timestamp as score */
  lemma {:induction false} AbsorbItem(w: Window, es: seq<Entry>, i: int)
    requires 0 <= i < |es| && IsFirstSighting(w, es, i)
    ensures es[i].id in Absorb(w, es).window
    ensures Absorb(w, es).window[es[i].id] == Item(es[i], es[i].timestamp)
    decreases |es|
  {
    var n := |es| - 1;
    var pre := es[..n];
    HeldBeforeTurn(w, es);
    if i < n {
      assert pre[i] == es[i];
      assert IsFirstSighting(w, pre, i) by {
        forall j | 0 <= j < i ensures pre[j].id != pre[i].id {
          assert pre[j] == es[j];
        }
      }
      AbsorbItem(w, pre, i);
      if IsFirstSighting(w, es, n) {
        assert es[n].id != es[i].id;
      }
    }
  }

  /** Each first sighting is stored with its own timestamp as score */
  lemma AbsorbItems(w: Window, es: seq<Entry>)
    ensures forall i :: 0 <= i < |es| && IsFirstSighting(w, es, i) ==>
              es[i].id in Absorb(w, es).window &&
              Absorb(w, es).window[es[i].id] == Item(es[i], es[i].timestamp)
  {
    forall i | 0 <= i < |es| && IsFirstSighting(w, es, i)
      ensures es[i].id in Absorb(w, es).window &&
              Absorb(w, es).window[es[i].id] == Item(es[i], es[i].timestamp)
    {
      AbsorbItem(w, es, i);
    }
  }

  /** `Dedup.newEntries`: the entries of `es` new to `topic`, with the
      topic's window updated and trimmed to the batch's earliest timestamp. */
  function NewEntries(topics: Topics, topic: string, es: seq<Entry>): (r: Batch)
    ensures r.newer == FirstSightings(WindowOf(topics, topic), es)
    ensures topic in r.topics
    ensures forall t :: t != topic ==> (t in r.topics <==> t in topics)
    ensures forall t :: t in topics && t != topic ==> r.topics[t] == topics[t]
    ensures forall k :: k in r.topics[topic] ==> r.topics[topic][k].score >= Earliest(es)
    ensures forall k :: k in r.topics[topic] ==> k in WindowOf(topics, topic) || k in Ids(es)
    ensures forall k :: k in WindowOf(topics, topic) ==>
              (k in r.topics[topic] <==> WindowOf(topics, topic)[k].score >= Earliest(es))
    ensures forall k :: k in WindowOf(topics, topic) && k in r.topics[topic] ==>
              r.topics[topic][k] == WindowOf(topics, topic)[k]
    ensures forall i :: 0 <= i < |es| && es[i].id !in WindowOf(topics, topic) ==> es[i].id in r.topics[topic]
    ensures forall i :: 0 <= i < |es| && IsFirstSighting(WindowOf(topics, topic), es, i) ==>
              r.topics[topic][es[i].id] == Item(es[i], es[i].timestamp)
  {
    var (topics1, w) := TopicSet(topics, topic);
    AbsorbEarliest(w, es);
    AbsorbKeys(w, es);
    AbsorbNewer(w, es);
    AbsorbItems(w, es);
    FirstSightingRetained(w, es);
    var p := Absorb(w, es);
    Batch(topics1[topic := RemoveLessThan(p.window, p.earliest)], p.newer)
  }

  /** Every id new to the window has a first sighting in the batch */
  lemma FirstSightingRetained(w: Window, es: seq<Entry>)
    ensures forall i :: 0 <= i < |es| && es[i].id !in w ==>
              exists j :: 0 <= j <= i && IsFirstSighting(w, es, j) && es[j].id == es[i].id
  {
    forall i | 0 <= i < |es| && es[i].id !in w
      ensures exists j :: 0 <= j <= i && IsFirstSighting(w, es, j) && es[j].id == es[i].id
    {
      FirstOccurrence(w, es, i);
    }
  }

  lemma {:induction false} FirstOccurrence(w: Window, es: seq<Entry>, i: int)
    requires 0 <= i < |es| && es[i].id !in w
    ensures exists j :: 0 <= j <= i && IsFirstSighting(w, es, j) && es[j].id == es[i].id
    decreases i
  {
    if !IsFirstSighting(w, es, i) {
      var j :| 0 <= j < i && es[j].id == es[i].id;
      FirstOccurrence(w, es, j);
    }
  }

  /** `Dedup.allEntries`: the topic's retained data by ascending score */
  method AllEntries(topics: Topics, topic: string) returns (topics': Topics, data: seq<Entry>)
    ensures topic in topics' && topics' == topics[topic := topics'[topic]]
    ensures topic in topics ==> topics' == topics
    ensures topic !in topics ==> topics'[topic] == map[] && data == []
    ensures exists order :: ScoreOrder(topics'[topic], order) && data == DataAlong(topics'[topic], order)
  {
    var (t, w) := TopicSet(topics, topic);
    topics' := t;
    data := All(w);
  }
}
