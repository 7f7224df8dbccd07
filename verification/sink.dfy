/**
 * The receiver stand-in (sink/src/index.ts): `POST /hook` does an
 * insert-if-absent on `idempotency:<key>` and performs its side effect only
 * when the key was new. The key store is a set of strings and the side
 * effect is the log of keys it ran for.
 */
module Sink {
  import opened Wrappers

  const KeyPrefix: string := "idempotency:"

  /** The key store and the keys whose side effect has run, in order. */
  datatype SinkState = SinkState(keys: set<string>, processed: seq<string>)

  datatype Reply = BadRequest400 | Ok200

  /** The store key a header value is recorded under. */
  function StoreKey(key: string): (k: string)
    ensures |k| == |KeyPrefix| + |key| && k[..|KeyPrefix|] == KeyPrefix && k[|KeyPrefix|..] == key
  {
    KeyPrefix + key
  }

  /** Different header values never share a store key. */
  lemma StoreKeyInjective(a: string, b: string)
    ensures StoreKey(a) == StoreKey(b) ==> a == b
  {
    if StoreKey(a) == StoreKey(b) {
      assert a == StoreKey(a)[|KeyPrefix|..];
    }
  }

  /** `!idempotencyKey`: an absent header and an empty one are both rejected. */
  predicate HasKey(header: Option<string>) {
    header.Some? && header.value != ""
  }

  /**
   * One `/hook` request. Without a key: 400 and nothing else. With a new key:
   * record it, run the effect, 200. With a known key: 200 and nothing else.
   */
  function Hook(s: SinkState, header: Option<string>): (r: (SinkState, Reply))
    ensures !HasKey(header) ==> r == (s, BadRequest400)
    ensures HasKey(header) ==> r.1 == Ok200
    ensures HasKey(header) && StoreKey(header.value) !in s.keys ==>
      r.0 == SinkState(s.keys + {StoreKey(header.value)}, s.processed + [header.value])
    ensures HasKey(header) && StoreKey(header.value) in s.keys ==> r.0 == s
  {
    if !HasKey(header) then (s, BadRequest400)
    else
      var k := StoreKey(header.value);
      if k !in s.keys then (SinkState(s.keys + {k}, s.processed + [header.value]), Ok200)
      else (s, Ok200)
  }

  /** The state after a sequence of requests, in order. */
  function Run(s: SinkState, headers: seq<Option<string>>): (s': SinkState)
    decreases |headers|
  {
    if headers == [] then s else Run(Hook(s, headers[0]).0, headers[1..])
  }

  /** The keys of the requests that carried one. */
  function KeysSeen(headers: seq<Option<string>>): (keys: set<string>) {
    set i | 0 <= i < |headers| && HasKey(headers[i]) :: headers[i].value
  }

  function ProcessedSet(processed: seq<string>): (keys: set<string>) {
    set i | 0 <= i < |processed| :: processed[i]
  }

  predicate NoDuplicates(xs: seq<string>) {
    forall i, j :: 0 <= i < j < |xs| ==> xs[i] != xs[j]
  }

  /** The store holds exactly the prefixed keys whose effect ran, and each effect ran once. */
  ghost predicate Accounted(s: SinkState) {
    && NoDuplicates(s.processed)
    && s.keys == set k | k in ProcessedSet(s.processed) :: StoreKey(k)
  }

  lemma ProcessedSetSnoc(xs: seq<string>, x: string)
    ensures ProcessedSet(xs + [x]) == ProcessedSet(xs) + {x}
  {
    var ys := xs + [x];
    assert ys[|xs|] == x;
    assert forall i :: 0 <= i < |xs| ==> ys[i] == xs[i];
  }

  /** One request keeps the store and the effect log in step. */
  lemma HookKeepsAccounted(s: SinkState, header: Option<string>)
    requires Accounted(s)
    ensures Accounted(Hook(s, header).0)
    ensures HasKey(header) ==> ProcessedSet(Hook(s, header).0.processed) == ProcessedSet(s.processed) + {header.value}
    ensures !HasKey(header) ==> Hook(s, header).0 == s
  {
    if HasKey(header) {
      var key := header.value;
      var k := StoreKey(key);
      if k !in s.keys {
        ProcessedSetSnoc(s.processed, key);
        assert key !in ProcessedSet(s.processed);
        forall i | 0 <= i < |s.processed|
          ensures s.processed[i] != key
        {
          assert s.processed[i] in ProcessedSet(s.processed);
        }
      } else {
        var k0 :| k0 in ProcessedSet(s.processed) && StoreKey(k0) == k;
        StoreKeyInjective(k0, key);
      }
    }
  }

  lemma KeysSeenCons(headers: seq<Option<string>>)
    requires headers != []
    ensures KeysSeen(headers) == (if HasKey(headers[0]) then {headers[0].value} else {}) + KeysSeen(headers[1..])
  {
    var tail := headers[1..];
    assert forall i :: 0 <= i < |tail| ==> tail[i] == headers[i + 1];
    forall x | x in KeysSeen(headers)
      ensures x in (if HasKey(headers[0]) then {headers[0].value} else {}) + KeysSeen(tail)
    {
      var i :| 0 <= i < |headers| && HasKey(headers[i]) && headers[i].value == x;
      if i > 0 {
        assert tail[i - 1] == headers[i];
      }
    }
  }

  /**
   * Over any request sequence starting from an empty store, each key's effect
   * runs exactly once: the effect log has no repeats and holds exactly the
   * keys that were sent.
   */
  lemma {:induction false} EffectOncePerKey(s: SinkState, headers: seq<Option<string>>)
    requires Accounted(s)
    ensures Accounted(Run(s, headers))
    ensures ProcessedSet(Run(s, headers).processed) == ProcessedSet(s.processed) + KeysSeen(headers)
    decreases |headers|
  {
    if headers != [] {
      var s1 := Hook(s, headers[0]).0;
      HookKeepsAccounted(s, headers[0]);
      EffectOncePerKey(s1, headers[1..]);
      KeysSeenCons(headers);
    }
  }

  lemma {:induction false} NoDuplicatesCard(xs: seq<string>)
    requires NoDuplicates(xs)
    ensures |ProcessedSet(xs)| == |xs|
    decreases |xs|
  {
    if xs != [] {
      var init := xs[..|xs| - 1];
      var last := xs[|xs| - 1];
      assert xs == init + [last];
      NoDuplicatesCard(init);
      ProcessedSetSnoc(init, last);
      assert last !in ProcessedSet(init);
    }
  }

  /** The effect count equals the number of distinct keys sent to a fresh sink. */
  lemma EffectCountIsDistinctKeys(headers: seq<Option<string>>)
    ensures NoDuplicates(Run(SinkState({}, []), headers).processed)
    ensures |Run(SinkState({}, []), headers).processed| == |KeysSeen(headers)|
  {
    var s0 := SinkState({}, []);
    assert ProcessedSet([]) == {};
    EffectOncePerKey(s0, headers);
    NoDuplicatesCard(Run(s0, headers).processed);
  }
}
