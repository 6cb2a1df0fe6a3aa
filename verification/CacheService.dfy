/**
 The cache service: a key-value store in Redis under a namespace, and deletion of the keys that match
 a pattern, which walks the key space with SCAN.
 */
module CacheService {
  import opened Common
  import opened Json

  /** What the application caches: a document, a list, or one page of a list. */
  datatype Value = DocumentV(document: Json) | ListV(documents: seq<Json>)
                 | PageV(data: seq<Json>, page: nat, limit: nat, pages: nat)

  // ---------- patterns ----------

  /** s contains w at i. */
  predicate At(s: string, w: string, i: nat) { i + |w| <= |s| && s[i..i + |w|] == w }

  predicate Contains(s: string, w: string) { exists i :: 0 <= i <= |s| && At(s, w, i) }

  /** The characters `.` does not match. */
  predicate IsLineTerminator(c: char) { c == '\n' || c == '\r' || c == '\U{2028}' || c == '\U{2029}' }

  predicate OneLine(s: string) { forall i :: 0 <= i < |s| ==> !IsLineTerminator(s[i]) }

  /** The test of `.*w.*$`: w occurs, and no line ends after it. */
  predicate Tests(w: string, s: string) {
    exists i :: 0 <= i <= |s| && At(s, w, i) && OneLine(s[i + |w|..])
  }

  /** The smallest index from i on at which w occurs in s, or |s| + 1. */
  function IndexOf(s: string, w: string, i: nat): (r: nat)
    requires i <= |s| + 1
    ensures i <= r <= |s| + 1 && (r <= |s| ==> At(s, w, r))
    ensures forall j :: i <= j < r ==> !At(s, w, j)
    decreases |s| + 1 - i
  {
    if i > |s| then i else if At(s, w, i) then i else IndexOf(s, w, i + 1)
  }

  /** `s.replace(w, "")`: without the first occurrence of w. */
  function WithoutFirst(s: string, w: string): string {
    var i := IndexOf(s, w, 0);
    if i <= |s| then s[..i] + s[i + |w|..] else s
  }

  // ---------- deletion, as a function of the stored keys ----------

  function InNamespace(namespace: string): string { namespace + ":" }

  /** A Redis key that the SCAN pattern lets through and the regular expression accepts. */
  predicate Selected(namespace: string, prefix: string, word: string, key: string) {
    Contains(key, InNamespace(namespace) + prefix) && Tests(word, key)
  }

  /** The key that is deleted on account of a selected one: the namespace is cut out and put in front again. */
  function Target(namespace: string, key: string): string {
    InNamespace(namespace) + WithoutFirst(key, InNamespace(namespace))
  }

  function SelectedKeys(namespace: string, prefix: string, word: string, keys: set<string>): set<string> {
    set k | k in keys && Selected(namespace, prefix, word, k)
  }

  function Targets(namespace: string, keys: set<string>): set<string> { set k | k in keys :: Target(namespace, k) }

  /** One reply of SCAN: the cursor to go on with, and a batch of keys. */
  datatype ScanReply = ScanReply(cursor: string, keys: seq<string>)

  /** The keys of the first n replies. */
  ghost function Returned(replies: seq<ScanReply>, n: nat): set<string>
    requires n <= |replies|
  {
    set i, j | 0 <= i < n && 0 <= j < |replies[i].keys| :: replies[i].keys[j]
  }

  lemma ReturnedNext(replies: seq<ScanReply>, n: nat)
    requires n < |replies|
    ensures forall k :: k in Returned(replies, n + 1) <==> k in Returned(replies, n) || k in replies[n].keys
  {
    forall k | k in replies[n].keys ensures k in Returned(replies, n + 1) {
      var j :| 0 <= j < |replies[n].keys| && replies[n].keys[j] == k;
    }
  }

  /**
   A full iteration over the keys that match the pattern: it ends with cursor 0 and not before, and
   returns every key, in any batches and any order, possibly more than once, and no other key.
   */
  ghost predicate FullIteration(replies: seq<ScanReply>, matching: set<string>) {
    && replies != []
    && (forall i :: 0 <= i < |replies| ==> (replies[i].cursor == "0" <==> i == |replies| - 1))
    && Returned(replies, |replies|) == matching
  }

  class CacheService {
    const namespace: string
    /** How Redis answers a SCAN over a set of matching keys. */
    const scan: set<string> -> seq<ScanReply>
    var redis: map<string, Value>

    ghost predicate Valid() { forall s: set<string> :: FullIteration(scan(s), s) }

    constructor (namespace: string, scan: set<string> -> seq<ScanReply>)
      requires forall s: set<string> :: FullIteration(scan(s), s)
      ensures Valid() && this.namespace == namespace && this.scan == scan && redis == map[]
    {
      this.namespace, this.scan, redis := namespace, scan, map[];
      new;
      assert forall s: set<string> :: FullIteration(this.scan(s), s);
    }

    method Get(key: string) returns (value: Option<Value>)
      ensures value == if InNamespace(namespace) + key in redis then Some(redis[InNamespace(namespace) + key]) else None
    {
      var k := InNamespace(namespace) + key;
      value := if k in redis then Some(redis[k]) else None;
    }

    method Set(key: string, value: Value)
      modifies this
      ensures redis == old(redis)[InNamespace(namespace) + key := value]
    {
      redis := redis[InNamespace(namespace) + key := value];
    }

    /** Deletion of a list of application keys. */
    method DelKeys(keys: seq<string>)
      modifies this
      ensures redis == old(redis) - (set k | k in keys :: InNamespace(namespace) + k)
    {
      for i := 0 to |keys|
        invariant redis == old(redis) - (set k | k in keys[..i] :: InNamespace(namespace) + k)
      {
        redis := redis - {InNamespace(namespace) + keys[i]};
        assert keys[..i + 1] == keys[..i] + [keys[i]];
      }
      assert keys[..|keys|] == keys;
    }

    /** Deletion by pattern: the SCAN loop collects the keys, which are then deleted together. */
    method DeleteKeysByRegex(word: string, prefix: string)
      requires Valid()
      modifies this
      ensures redis == old(redis) - Targets(namespace, SelectedKeys(namespace, prefix, word, old(redis).Keys))
    {
      var pattern := InNamespace(namespace) + prefix;
      var matching := set k | k in redis && Contains(k, pattern);
      var replies := scan(matching);
      assert FullIteration(replies, matching);
      var matchingKeys: seq<string> := [];
      var i, cursor := 0, "";
      while cursor != "0"
        invariant redis == old(redis) && i <= |replies| && (cursor == "0" <==> i == |replies|)
        invariant forall m :: m in matchingKeys <==>
                    exists k :: k in Returned(replies, i) && Tests(word, k)
                                && m == WithoutFirst(k, InNamespace(namespace))
        decreases |replies| - i
      {
        var reply := replies[i];
        cursor := reply.cursor;
        var collected := CollectKeys(reply.keys, word);
        matchingKeys := matchingKeys + collected;
        ReturnedNext(replies, i);
        i := i + 1;
      }
      DelKeys(matchingKeys);
      ghost var selected := SelectedKeys(namespace, prefix, word, old(redis).Keys);
      forall t
        ensures t in (set k | k in matchingKeys :: InNamespace(namespace) + k) <==> t in Targets(namespace, selected)
      {
        if t in Targets(namespace, selected) {
          var k :| k in selected && t == Target(namespace, k);
          assert k in Returned(replies, i);
          assert WithoutFirst(k, InNamespace(namespace)) in matchingKeys;
        }
        if m :| m in matchingKeys && t == InNamespace(namespace) + m {
          var k :| k in Returned(replies, i) && Tests(word, k) && m == WithoutFirst(k, InNamespace(namespace));
          assert k in selected && t == Target(namespace, k);
        }
      }
      assert (set k | k in matchingKeys :: InNamespace(namespace) + k) == Targets(namespace, selected);
    }

    /** One batch: the keys the expression accepts, with the namespace cut out. */
    method CollectKeys(keys: seq<string>, word: string) returns (collected: seq<string>)
      ensures forall m :: m in collected <==>
                exists k :: k in keys && Tests(word, k) && m == WithoutFirst(k, InNamespace(namespace))
    {
      collected := [];
      for j := 0 to |keys|
        invariant forall m :: m in collected <==>
                    exists k :: k in keys[..j] && Tests(word, k) && m == WithoutFirst(k, InNamespace(namespace))
      {
        assert keys[..j + 1] == keys[..j] + [keys[j]];
        if Tests(word, keys[j]) {
          collected := collected + [WithoutFirst(keys[j], InNamespace(namespace))];
        }
      }
      assert keys[..|keys|] == keys;
    }

    /** An entry whose time to live is over disappears. */
    method Expire(key: string)
      modifies this
      ensures redis == old(redis) - {InNamespace(namespace) + key}
    {
      redis := redis - {InNamespace(namespace) + key};
    }
  }

  // ---------- what deletion by pattern achieves ----------

  lemma TargetOfOwn(namespace: string, key: string)
    requires At(key, InNamespace(namespace), 0)
    ensures Target(namespace, key) == key
  {
    var w := InNamespace(namespace);
    assert IndexOf(key, w, 0) == 0;
    assert key[..0] + key[|w|..] == key[|w|..];
    assert key == key[0..|w|] + key[|w|..];
  }

  lemma TargetIsOwn(namespace: string, key: string)
    ensures At(Target(namespace, key), InNamespace(namespace), 0)
  {
  }

  /**
   Deletion by pattern removes exactly the keys that pass both tests, and keeps all others, if and
   only if each key that passes both tests starts with the namespace.
   */
  lemma DeletesExactlySelected(namespace: string, prefix: string, word: string, redis: map<string, Value>)
    ensures redis - Targets(namespace, SelectedKeys(namespace, prefix, word, redis.Keys))
            == redis - SelectedKeys(namespace, prefix, word, redis.Keys)
            <==> forall k :: k in redis && Selected(namespace, prefix, word, k) ==> At(k, InNamespace(namespace), 0)
  {
    var selected := SelectedKeys(namespace, prefix, word, redis.Keys);
    var targets := Targets(namespace, selected);
    if forall k :: k in redis && Selected(namespace, prefix, word, k) ==> At(k, InNamespace(namespace), 0) {
      forall k | k in selected ensures Target(namespace, k) == k {
        TargetOfOwn(namespace, k);
      }
      assert targets == selected;
    } else {
      var k :| k in redis && Selected(namespace, prefix, word, k) && !At(k, InNamespace(namespace), 0);
      forall s | s in selected ensures Target(namespace, s) != k {
        TargetIsOwn(namespace, s);
      }
      assert k in redis - targets && k !in redis - selected;
    }
  }

  /** A key of another namespace whose name ends like ours is selected, and survives. */
  lemma ForeignKeySurvives()
    ensures Selected("root", "user", "7", "xroot:user:7") && Target("root", "xroot:user:7") == "root:xuser:7"
  {
    var k, w := "xroot:user:7", "root:";
    assert InNamespace("root") == w;
    assert k[1..10] == w + "user";
    assert At(k, w + "user", 1);
    assert k[11..12] == "7" && k[12..] == "";
    assert At(k, "7", 11);
    assert k[0..5] == "xroot" && "xroot"[0] != w[0];
    assert !At(k, w, 0);
    assert k[1..6] == w;
    assert At(k, w, 1);
    assert IndexOf(k, w, 0) == 1;
    assert k[..1] == "x" && k[6..] == "user:7";
  }
}
