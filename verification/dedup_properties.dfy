/** Properties of the dedup window across calls, including the scenarios
    exercised by test/dedup.js. */
module DedupProperties {
  import opened Dedup

  /** Ids in a batch are pairwise distinct */
  predicate DistinctIds(es: seq<Entry>) {
    forall i, j :: 0 <= i < j < |es| ==> es[i].id != es[j].id
  }

  /** `e` is the first sighting of its id in `es` */
  ghost predicate SightedIn(w: Window, es: seq<Entry>, e: Entry) {
    exists i :: 0 <= i < |es| && IsFirstSighting(w, es, i) && e == es[i]
  }

  /** Every reported entry is a first sighting of the batch */
  lemma {:induction false} FirstSightingsAreSightings(w: Window, es: seq<Entry>)
    ensures forall x :: 0 <= x < |FirstSightings(w, es)| ==> SightedIn(w, es, FirstSightings(w, es)[x])
    decreases |es|
  {
    if es != [] {
      var n := |es| - 1;
      var pre := es[..n];
      FirstSightingsAreSightings(w, pre);
      var out := FirstSightings(w, es);
      var prev := FirstSightings(w, pre);
      assert out == prev + (if IsFirstSighting(w, es, n) then [es[n]] else []);
      forall x | 0 <= x < |out| ensures SightedIn(w, es, out[x]) {
        if x < |prev| {
          assert out[x] == prev[x];
          assert SightedIn(w, pre, prev[x]);
          var i :| 0 <= i < |pre| && IsFirstSighting(w, pre, i) && prev[x] == pre[i];
          assert pre[i] == es[i];
          assert IsFirstSighting(w, es, i) by {
            forall j | 0 <= j < i ensures es[j].id != es[i].id {
              assert pre[j] == es[j];
            }
          }
        } else {
          assert IsFirstSighting(w, es, n) && out[x] == es[n];
        }
      }
    } else {
      assert FirstSightings(w, es) == [];
    }
  }

  /** The reported entries carry pairwise distinct ids, none already held */
  lemma {:induction false} FirstSightingsDistinct(w: Window, es: seq<Entry>)
    ensures DistinctIds(FirstSightings(w, es))
    ensures forall x :: 0 <= x < |FirstSightings(w, es)| ==> FirstSightings(w, es)[x].id !in w
    decreases |es|
  {
    if es != [] {
      var n := |es| - 1;
      var pre := es[..n];
      FirstSightingsDistinct(w, pre);
      FirstSightingsAreSightings(w, pre);
      var prev := FirstSightings(w, pre);
      if IsFirstSighting(w, es, n) {
        forall x | 0 <= x < |prev| ensures prev[x].id != es[n].id {
          assert SightedIn(w, pre, prev[x]);
          var i :| 0 <= i < |pre| && IsFirstSighting(w, pre, i) && prev[x] == pre[i];
          assert pre[i] == es[i];
        }
      }
    }
  }

  /** From an empty window a batch of distinct ids is reported in full */
  lemma {:induction false} DistinctBatchAllFirstSightings(es: seq<Entry>)
    requires DistinctIds(es)
    ensures FirstSightings(map[], es) == es
    decreases |es|
  {
    if es != [] {
      var n := |es| - 1;
      var pre := es[..n];
      assert DistinctIds(pre) by {
        forall i, j | 0 <= i < j < |pre| ensures pre[i].id != pre[j].id {
          assert pre[i] == es[i] && pre[j] == es[j];
        }
      }
      DistinctBatchAllFirstSightings(pre);
      assert IsFirstSighting(map[], es, n);
      assert pre + [es[n]] == es;
    }
  }

  /** A batch whose ids the window already holds reports nothing */
  lemma {:induction false} HeldBatchReportsNothing(w: Window, es: seq<Entry>)
    requires Ids(es) <= w.Keys
    ensures FirstSightings(w, es) == []
    decreases |es|
  {
    if es != [] {
      var n := |es| - 1;
      IdsOfPrefix(es);
      HeldBatchReportsNothing(w, es[..n]);
      assert !IsFirstSighting(w, es, n);
    }
  }

  /** The output of `newEntries` never repeats an id, and none was held */
  lemma NewEntriesDistinct(topics: Topics, topic: string, es: seq<Entry>)
    ensures DistinctIds(NewEntries(topics, topic, es).newer)
    ensures topic in topics ==> forall x :: 0 <= x < |NewEntries(topics, topic, es).newer| ==>
              NewEntries(topics, topic, es).newer[x].id !in topics[topic]
  {
    var w := if topic in topics then topics[topic] else map[];
    FirstSightingsDistinct(w, es);
  }

  /** Every entry returned by `newEntries` is retained, scored by its timestamp */
  lemma NewEntriesRetained(topics: Topics, topic: string, es: seq<Entry>)
    ensures var r := NewEntries(topics, topic, es);
      forall x :: 0 <= x < |r.newer| ==>
        r.newer[x].id in r.topics[topic] &&
        r.topics[topic][r.newer[x].id] == Item(r.newer[x], r.newer[x].timestamp)
  {
    var w := if topic in topics then topics[topic] else map[];
    FirstSightingsAreSightings(w, es);
  }

  /** A first batch for a fresh topic is returned whole when its ids are distinct */
  lemma FreshTopicReturnsBatch(topics: Topics, topic: string, es: seq<Entry>)
    requires topic !in topics
    requires DistinctIds(es)
    ensures NewEntries(topics, topic, es).newer == es
  {
    DistinctBatchAllFirstSightings(es);
  }

  /** A window holding every id of a batch, all scored at or above its
      earliest timestamp, is left as it is by that batch */
  lemma HeldBatchKeepsWindow(w: Window, es: seq<Entry>)
    requires Ids(es) <= w.Keys
    requires forall k :: k in w ==> w[k].score >= Earliest(es)
    ensures FirstSightings(w, es) == []
    ensures RemoveLessThan(Absorb(w, es).window, Absorb(w, es).earliest) == w
  {
    HeldBatchReportsNothing(w, es);
    AbsorbKeys(w, es);
    AbsorbEarliest(w, es);
    var w2 := RemoveLessThan(Absorb(w, es).window, Absorb(w, es).earliest);
    assert w2.Keys == w.Keys;
  }

  /** Repeating the first batch of a fresh topic returns nothing and leaves
      the window as it was */
  lemma RepeatBatchReturnsNothing(topics: Topics, topic: string, es: seq<Entry>)
    requires topic !in topics
    ensures var r1 := NewEntries(topics, topic, es);
      var r2 := NewEntries(r1.topics, topic, es);
      r2.newer == [] && r2.topics == r1.topics
  {
    var r1 := NewEntries(topics, topic, es);
    var w1 := r1.topics[topic];
    assert Ids(es) <= w1.Keys;
    HeldBatchKeepsWindow(w1, es);
    AbsorbNewer(w1, es);
    var r2 := NewEntries(r1.topics, topic, es);
    assert r2.topics == r1.topics[topic := w1];
  }

  /** Topics do not share windows: the same batch under two fresh topics is
      returned whole both times */
  lemma TopicsIsolated(topics: Topics, t1: string, t2: string, es: seq<Entry>)
    requires t1 != t2 && t1 !in topics && t2 !in topics
    requires DistinctIds(es)
    ensures var r1 := NewEntries(topics, t1, es);
      r1.newer == es && NewEntries(r1.topics, t2, es).newer == es
  {
    DistinctBatchAllFirstSightings(es);
  }

  /** An empty batch empties the window: its earliest timestamp is
      `Number.MAX_VALUE`, above every realistic score */
  lemma EmptyBatchEmptiesWindow(topics: Topics, topic: string)
    requires topic in topics
    requires forall k :: k in topics[topic] ==> topics[topic][k].score < NumberMaxValue
    ensures NewEntries(topics, topic, []).newer == []
    ensures NewEntries(topics, topic, []).topics[topic] == map[]
  {
  }

  /** An id already held keeps its first datum and score when it reappears,
      and so is evicted by a batch whose timestamps are all later */
  lemma ReappearingIdEvicted(topics: Topics, topic: string, es: seq<Entry>, k: string)
    requires topic in topics && k in topics[topic] && k in Ids(es)
    requires topics[topic][k].score < NumberMaxValue
    requires forall i :: 0 <= i < |es| ==> es[i].timestamp > topics[topic][k].score
    ensures k !in NewEntries(topics, topic, es).topics[topic]
    ensures forall x :: 0 <= x < |NewEntries(topics, topic, es).newer| ==>
              NewEntries(topics, topic, es).newer[x].id != k
  {
    if Earliest(es) != NumberMaxValue {
      var i :| 0 <= i < |es| && es[i].timestamp == Earliest(es);
    }
    NewEntriesDistinct(topics, topic, es);
  }

  /** ... so that an id held with a score below a batch's earliest
      timestamp is evicted by that batch, and any next batch that carries
      it reports it again */
  lemma EvictedIdReportedAgain(topics: Topics, topic: string, es1: seq<Entry>, es2: seq<Entry>, k: string)
    requires topic in topics && k in topics[topic] && topics[topic][k].score < Earliest(es1)
    requires k in Ids(es2)
    ensures var r1 := NewEntries(topics, topic, es1);
      && k !in r1.topics[topic]
      && exists x :: 0 <= x < |NewEntries(r1.topics, topic, es2).newer| &&
                     NewEntries(r1.topics, topic, es2).newer[x].id == k
  {
    var r1 := NewEntries(topics, topic, es1);
    var w1 := r1.topics[topic];
    assert WindowOf(topics, topic) == topics[topic];
    assert k !in w1;
    var out := NewEntries(r1.topics, topic, es2).newer;
    assert WindowOf(r1.topics, topic) == w1;
    assert out == FirstSightings(w1, es2);
    var i :| 0 <= i < |es2| && es2[i].id == k;
    FirstOccurrence(w1, es2, i);
    var j :| 0 <= j <= i && IsFirstSighting(w1, es2, j) && es2[j].id == k;
    FirstSightingReported(w1, es2, j);
  }

  /** A first sighting is among the reported entries */
  lemma {:induction false} FirstSightingReported(w: Window, es: seq<Entry>, j: int)
    requires 0 <= j < |es| && IsFirstSighting(w, es, j)
    ensures exists x :: 0 <= x < |FirstSightings(w, es)| && FirstSightings(w, es)[x] == es[j]
    decreases |es|
  {
    var n := |es| - 1;
    if j < n {
      var rest := es[..n];
      assert IsFirstSighting(w, rest, j) by {
        forall i | 0 <= i < j ensures rest[i].id != rest[j].id {
          assert rest[i] == es[i] && rest[j] == es[j];
        }
      }
      FirstSightingReported(w, rest, j);
      var x :| 0 <= x < |FirstSightings(w, rest)| && FirstSightings(w, rest)[x] == rest[j];
      assert FirstSightings(w, es)[x] == FirstSightings(w, rest)[x];
    } else {
      assert FirstSightings(w, es)[|FirstSightings(w, es)| - 1] == es[j];
    }
  }

  /** An instance: `a` is held with score 0, the batch [a@5] reports nothing
      but evicts it, and the same batch then reports it */
  lemma RepeatAfterEvictionReports()
    ensures var a0 := Entry("a", 0, "old");
      var a5 := Entry("a", 5, "new");
      var topics := map["t" := map["a" := Item(a0, 0)]];
      var r1 := NewEntries(topics, "t", [a5]);
      r1.newer == [] && NewEntries(r1.topics, "t", [a5]).newer == [a5]
  {
    var a0 := Entry("a", 0, "old");
    var a5 := Entry("a", 5, "new");
    var topics := map["t" := map["a" := Item(a0, 0)]];
    assert Ids([a5]) == {"a"};
    var r1 := NewEntries(topics, "t", [a5]);
    assert FirstSightings(map["a" := Item(a0, 0)], [a5]) == [];
    assert "a" !in r1.topics["t"];
    assert IsFirstSighting(r1.topics["t"], [a5], 0);
    assert FirstSightings(r1.topics["t"], [a5]) == FirstSightings(r1.topics["t"], []) + [a5];
  }

  lemma IdsOfPair(a: Entry, b: Entry)
    ensures Ids([a, b]) == {a.id, b.id}
  {
    assert [a, b][0] == a && [a, b][1] == b;
  }

  /** After the first batch of the overlap scenario the window holds e1 and e2 */
  lemma OverlapFirstBatch(e1: Entry, e2: Entry)
    requires e1 == Entry("1", 1, "foobar") && e2 == Entry("2", 2, "barfoo")
    ensures NewEntries(map[], "topic", [e1, e2]).newer == [e1, e2]
    ensures NewEntries(map[], "topic", [e1, e2]).topics ==
              map["topic" := map["1" := Item(e1, 1), "2" := Item(e2, 2)]]
  {
    FreshTopicReturnsBatch(map[], "topic", [e1, e2]);
    var r1 := NewEntries(map[], "topic", [e1, e2]);
    var w1 := r1.topics["topic"];
    IdsOfPair(e1, e2);
    assert Earliest([e1, e2]) == 1;
    assert IsFirstSighting(map[], [e1, e2], 0) && IsFirstSighting(map[], [e1, e2], 1);
    assert w1.Keys == {"1", "2"};
    assert w1 == map["1" := Item(e1, 1), "2" := Item(e2, 2)];
    assert r1.topics.Keys == {"topic"};
  }

  /** The second batch of the overlap scenario, against the window the
      first left: only e3 is new, and e1 falls below the earliest timestamp */
  lemma OverlapSecondBatch(e1: Entry, e2: Entry, e3: Entry)
    requires e1 == Entry("1", 1, "foobar") && e2 == Entry("2", 2, "barfoo")
    requires e3 == Entry("3", 3, "foobaz")
    ensures var w1 := map["1" := Item(e1, 1), "2" := Item(e2, 2)];
      && FirstSightings(w1, [e2, e3]) == [e3]
      && Earliest([e2, e3]) == 2
      && RemoveLessThan(Absorb(w1, [e2, e3]).window, Earliest([e2, e3])).Keys == {"2", "3"}
  {
    var w1 := map["1" := Item(e1, 1), "2" := Item(e2, 2)];
    var es := [e2, e3];
    IdsOfPair(e2, e3);
    AbsorbKeys(w1, es);
    assert Absorb(w1, es).window.Keys == {"1", "2", "3"};
    assert !IsFirstSighting(w1, es, 0);
    assert IsFirstSighting(w1, es, 1);
    AbsorbItem(w1, es, 1);
    assert es[..1] == [e2];
    assert FirstSightings(w1, [e2]) == FirstSightings(w1, []) + [];
  }

  /** The overlap scenario of test/dedup.js: [e1, e2] then [e2, e3] report
      [e1, e2] then [e3], and e1 (score 1, below the second batch's 2) is evicted */
  lemma OverlappingBatches(e1: Entry, e2: Entry, e3: Entry)
    requires e1 == Entry("1", 1, "foobar") && e2 == Entry("2", 2, "barfoo")
    requires e3 == Entry("3", 3, "foobaz")
    ensures var r1 := NewEntries(map[], "topic", [e1, e2]);
      var r2 := NewEntries(r1.topics, "topic", [e2, e3]);
      && r1.newer == [e1, e2]
      && r2.newer == [e3]
      && r2.topics["topic"].Keys == {"2", "3"}
  {
    OverlapFirstBatch(e1, e2);
    OverlapSecondBatch(e1, e2, e3);
    var w1 := map["1" := Item(e1, 1), "2" := Item(e2, 2)];
    AbsorbNewer(w1, [e2, e3]);
    AbsorbEarliest(w1, [e2, e3]);
  }

  /** The first scenario of test/dedup.js: all new, then nothing new */
  lemma AllNewThenNothing()
    ensures var es := [Entry("1", 1, "foobar"), Entry("2", 2, "barfoo"), Entry("3", 3, "foobaz")];
      var r1 := NewEntries(map[], "topic", es);
      r1.newer == es && NewEntries(r1.topics, "topic", es).newer == []
  {
    var es := [Entry("1", 1, "foobar"), Entry("2", 2, "barfoo"), Entry("3", 3, "foobaz")];
    FreshTopicReturnsBatch(map[], "topic", es);
    RepeatBatchReturnsNothing(map[], "topic", es);
  }
}
