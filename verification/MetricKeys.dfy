/** The Redis keys of the sample cache: built by `set_sample`
    (bcp-redis-client/python/src/bcp_redis_client/sample.py), listed and taken
    apart by `get_all_metric_ids` (asyncio.py). */
module MetricKeys {
  import opened Common
  import Utf8

  type Key = seq<Byte>

  const CACHE := "sample-cache"

  function KeyOf(id: string): string {
    CACHE + ":" + id
  }

  lemma CacheKey(id: string)
    ensures KeyOf(id) == "sample-cache:" + id
  {
    assert CACHE + ":" == "sample-cache:";
  }

  predicate ColonFree(s: string) {
    forall i :: 0 <= i < |s| ==> s[i] != ':'
  }

  // ----------------------------------------------------------------- splitting

  /** `s.split(":")`. */
  function Split(s: string): (parts: seq<string>)
    ensures |parts| >= 1
  {
    if s == "" then [""]
    else
      var rest := Split(s[1..]);
      if s[0] == ':' then [""] + rest else [[s[0]] + rest[0]] + rest[1..]
  }

  function Join(parts: seq<string>): string
    requires |parts| >= 1
  {
    if |parts| == 1 then parts[0] else parts[0] + ":" + Join(parts[1..])
  }

  /** Splitting and joining are inverse, and the parts hold no colon. */
  lemma {:induction false} JoinSplit(s: string)
    ensures Join(Split(s)) == s
    ensures forall i :: 0 <= i < |Split(s)| ==> ColonFree(Split(s)[i])
  {
    if s == "" {
    } else {
      var rest := Split(s[1..]);
      JoinSplit(s[1..]);
      assert s == [s[0]] + s[1..];
      if s[0] == ':' {
        assert Split(s)[1..] == rest;
      } else {
        assert Split(s)[1..] == rest[1..];
      }
    }
  }

  lemma {:induction false} SplitFree(s: string)
    requires ColonFree(s)
    ensures Split(s) == [s]
  {
    if s != "" {
      SplitFree(s[1..]);
      assert [s[0]] + s[1..] == s;
    }
  }

  lemma {:induction false} SplitAfter(part: string, rest: string)
    requires ColonFree(part)
    ensures Split(part + ":" + rest) == [part] + Split(rest)
  {
    var whole := part + ":" + rest;
    if part == "" {
      assert whole[1..] == rest;
    } else {
      assert whole[1..] == part[1..] + ":" + rest;
      SplitAfter(part[1..], rest);
      assert [part[0]] + part[1..] == part;
    }
  }

  lemma {:induction false} SplitJoin(parts: seq<string>)
    requires |parts| >= 1 && forall i :: 0 <= i < |parts| ==> ColonFree(parts[i])
    ensures Split(Join(parts)) == parts
  {
    if |parts| == 1 {
      SplitFree(parts[0]);
    } else {
      SplitJoin(parts[1..]);
      SplitAfter(parts[0], Join(parts[1..]));
    }
  }

  /** The id in a key, if the key is of the cache's form. */
  function IdOf(key: string): Option<string> {
    var parts := Split(key);
    if |parts| == 2 && parts[0] == CACHE then Some(parts[1]) else None
  }

  /** A key yields an id exactly when it was built from that id and the id holds
      no colon. */
  lemma IdOfExactly(key: string, id: string)
    ensures IdOf(key) == Some(id) <==> key == "sample-cache:" + id && ColonFree(id)
  {
    CacheKey(id);
    if IdOf(key) == Some(id) {
      JoinSplit(key);
      assert Split(key)[1..] == [id];
    }
    if key == KeyOf(id) && ColonFree(id) {
      SplitFree(id);
      SplitAfter(CACHE, id);
    }
  }

  // -------------------------------------------------------------------- listing

  /** The pattern `sample-cache:*`. */
  predicate Matches(key: Key) {
    Utf8.Encode(KeyOf("")) <= key
  }

  /** What one call of SCAN returns. */
  datatype Batch = Batch(cursor: nat, keys: seq<Key>)

  /** A complete iteration over an unchanging keyspace, as SCAN guarantees it:
      the cursor is zero at the end and not before, and the batches hold every
      matching key at least once and no other. */
  ghost predicate Scanned(batches: seq<Batch>, keyspace: set<Key>) {
    batches != []
    && (forall i :: 0 <= i < |batches| ==> (batches[i].cursor == 0 <==> i == |batches| - 1))
    && (forall key :: key in Listed(batches) <==> key in keyspace && Matches(key))
  }

  function Listed(batches: seq<Batch>): set<Key> {
    set i, j | 0 <= i < |batches| && 0 <= j < |batches[i].keys| :: batches[i].keys[j]
  }

  /** Keys that are not UTF-8 make `decode` fail. */
  predicate Decodable(keys: set<Key>) {
    forall key :: key in keys ==> Utf8.Decode(key).Some?
  }

  function Decoded(keys: set<Key>): set<string>
    requires Decodable(keys)
  {
    set key | key in keys :: Utf8.Decode(key).value
  }

  /** `get_all_metric_ids`: none if some key is not UTF-8, else the ids that have
      a key and hold no colon. */
  method GetAllMetricIds(batches: seq<Batch>, ghost keyspace: set<Key>) returns (result: Option<set<string>>)
    requires Scanned(batches, keyspace)
    ensures result.None? <==> !Decodable(Listed(batches))
    ensures result.Some? ==> Answer(keyspace, result.value)
  {
    hide Utf8.Decode, Utf8.Encode, IdOf, KeyOf, ColonFree;
    var metricKeys: set<string> := {};
    var i := 0;
    var more := true;
    while more
      invariant 0 <= i <= |batches| && (more <==> i < |batches|)
      invariant Decodable(Listed(batches[..i])) && metricKeys == Decoded(Listed(batches[..i]))
      decreases |batches| - i
    {
      var batch := batches[i];
      var ok, decoded := DecodeAll(batch.keys);
      OneBatch(batches, i);
      if !ok {
        assert Listed(batches[..i + 1]) <= Listed(batches);
        return None;
      }
      metricKeys := metricKeys + decoded;
      i := i + 1;
      more := batch.cursor != 0;
    }
    assert batches[..i] == batches;
    var metricIds: set<string> := {};
    var remaining := metricKeys;
    while remaining != {}
      invariant remaining <= metricKeys
      invariant forall id :: id in metricIds <==> exists key :: key in metricKeys - remaining && IdOf(key) == Some(id)
      decreases |remaining|
    {
      var key :| key in remaining;
      var id := Parse(key);
      if id.Some? {
        metricIds := metricIds + {id.value};
      }
      remaining := remaining - {key};
    }
    forall id ensures id in metricIds <==> ColonFree(id) && Utf8.Encode(KeyOf(id)) in keyspace {
      IdListed(batches, keyspace, id);
    }
    result := Some(metricIds);
  }

  /** Both tests on a key's parts. */
  method Parse(key: string) returns (id: Option<string>)
    ensures id == IdOf(key)
  {
    var parts := Split(key);
    if |parts| == 2 && parts[0] == CACHE {
      id := Some(parts[1]);
    } else {
      id := None;
    }
  }

  /** Decoding one batch. */
  method DecodeAll(keys: seq<Key>) returns (ok: bool, decoded: set<string>)
    ensures ok <==> Decodable(set j | 0 <= j < |keys| :: keys[j])
    ensures ok ==> decoded == Decoded(set j | 0 <= j < |keys| :: keys[j])
  {
    hide Utf8.Decode;
    decoded := {};
    for j := 0 to |keys|
      invariant Decodable(set k | 0 <= k < j :: keys[k]) && decoded == Decoded(set k | 0 <= k < j :: keys[k])
    {
      var text := Utf8.Decode(keys[j]);
      assert (set k | 0 <= k < j + 1 :: keys[k]) == (set k | 0 <= k < j :: keys[k]) + {keys[j]};
      if text.None? {
        assert keys[j] in set k | 0 <= k < |keys| :: keys[k];
        return false, decoded;
      }
      decoded := decoded + {text.value};
    }
    ok := true;
  }

  lemma OneBatch(batches: seq<Batch>, i: nat)
    requires i < |batches|
    ensures Listed(batches[..i + 1]) == Listed(batches[..i]) + set j | 0 <= j < |batches[i].keys| :: batches[i].keys[j]
    ensures Listed(batches[..i + 1]) <= Listed(batches)
  {
  }

  lemma IdListed(batches: seq<Batch>, keyspace: set<Key>, id: string)
    requires Scanned(batches, keyspace) && Decodable(Listed(batches))
    ensures (exists key :: key in Decoded(Listed(batches)) && IdOf(key) == Some(id))
            <==> ColonFree(id) && Utf8.Encode(KeyOf(id)) in keyspace
  {
    hide IdOf, Utf8.Decode, Utf8.Encode, ColonFree, Listed;
    var raw := Utf8.Encode(KeyOf(id));
    if ColonFree(id) && raw in keyspace {
      KeyMatches(id);
      assert raw in Listed(batches);
      Utf8.DecodesExactly(raw, KeyOf(id));
      CacheKey(id);
      IdOfExactly(KeyOf(id), id);
      assert KeyOf(id) in Decoded(Listed(batches));
    }
    if key :| key in Decoded(Listed(batches)) && IdOf(key) == Some(id) {
      CacheKey(id);
      IdOfExactly(key, id);
      var other :| other in Listed(batches) && Utf8.Decode(other) == Some(key);
      Utf8.DecodesExactly(other, key);
    }
  }

  lemma KeyMatches(id: string)
    ensures Matches(Utf8.Encode(KeyOf(id)))
  {
    EncodePrefix(KeyOf(""), id);
    assert KeyOf(id) == KeyOf("") + id;
  }

  lemma {:induction false} EncodePrefix(s: string, t: string)
    ensures Utf8.Encode(s) <= Utf8.Encode(s + t)
  {
    if s != "" {
      assert (s + t)[1..] == s[1..] + t;
      EncodePrefix(s[1..], t);
    }
  }

  // -------------------------------------------------------------------- setting

  /** One call of `set_sample`: the argument, the sample's own id, its text. */
  datatype SetCall = SetCall(metricId: string, sampleId: string, json: string)

  function CacheAfter(cache: map<Key, string>, sets: seq<SetCall>): map<Key, string> {
    if sets == [] then cache
    else CacheAfter(cache, sets[..|sets| - 1])[Utf8.Encode(KeyOf(sets[|sets| - 1].sampleId)) := sets[|sets| - 1].json]
  }

  function SetIds(sets: seq<SetCall>): set<string> {
    set i | 0 <= i < |sets| :: sets[i].sampleId
  }

  lemma {:induction false} KeysAfter(cache: map<Key, string>, sets: seq<SetCall>, key: Key)
    ensures key in CacheAfter(cache, sets) <==> key in cache || exists id :: id in SetIds(sets) && key == Utf8.Encode(KeyOf(id))
  {
    hide Utf8.Encode, KeyOf;
    if sets != [] {
      var last := |sets| - 1;
      KeysAfter(cache, sets[..last], key);
      assert SetIds(sets) == SetIds(sets[..last]) + {sets[last].sampleId};
    }
  }

  lemma KeyInjective(a: string, b: string)
    requires Utf8.Encode(KeyOf(a)) == Utf8.Encode(KeyOf(b))
    ensures a == b
  {
    Utf8.RoundTrip(KeyOf(a));
    Utf8.RoundTrip(KeyOf(b));
    assert KeyOf(a)[|KeyOf("")|..] == a && KeyOf(b)[|KeyOf("")|..] == b;
  }

  /** What `get_all_metric_ids` answers for a keyspace, by its contract. */
  ghost predicate Answer(keyspace: set<Key>, ids: set<string>) {
    forall id :: id in ids <==> ColonFree(id) && Utf8.Encode(KeyOf(id)) in keyspace
  }

  /** After any run of `set_sample` on a keyspace without sample keys, the
      answer is the set of ids that were set and hold no colon; so it is the set
      of ids that were set if and only if none of them holds a colon. */
  lemma ListedExactly(cache: map<Key, string>, sets: seq<SetCall>, ids: set<string>)
    requires forall key :: key in cache ==> !Matches(key)
    requires Answer(CacheAfter(cache, sets).Keys, ids)
    ensures ids == set id | id in SetIds(sets) && ColonFree(id)
    ensures ids == SetIds(sets) <==> forall id :: id in SetIds(sets) ==> ColonFree(id)
  {
    hide Utf8.Encode, KeyOf, ColonFree, Matches, CacheAfter, SetIds;
    forall id ensures id in ids <==> id in SetIds(sets) && ColonFree(id) {
      KeysAfter(cache, sets, Utf8.Encode(KeyOf(id)));
      KeyMatches(id);
      if other :| other in SetIds(sets) && Utf8.Encode(KeyOf(id)) == Utf8.Encode(KeyOf(other)) {
        KeyInjective(id, other);
      }
    }
  }

  /** And then there is an answer: every key that matches can be decoded. */
  lemma AllDecodable(cache: map<Key, string>, sets: seq<SetCall>, batches: seq<Batch>)
    requires forall key :: key in cache ==> !Matches(key)
    requires Scanned(batches, CacheAfter(cache, sets).Keys)
    ensures Decodable(Listed(batches))
  {
    hide Utf8.Encode, Utf8.Decode, KeyOf, CacheAfter, SetIds, Listed, Matches;
    forall key | key in Listed(batches) ensures Utf8.Decode(key).Some? {
      KeysAfter(cache, sets, key);
      var id :| id in SetIds(sets) && key == Utf8.Encode(KeyOf(id));
      Utf8.RoundTrip(KeyOf(id));
    }
  }

  /** The value under an id's key is the text of the last call whose sample has
      that id. */
  lemma {:induction false} LastStored(cache: map<Key, string>, sets: seq<SetCall>, i: nat)
    requires i < |sets| && forall j :: i < j < |sets| ==> sets[j].sampleId != sets[i].sampleId
    ensures var key, after := Utf8.Encode("sample-cache:" + sets[i].sampleId), CacheAfter(cache, sets);
            key in after && after[key] == sets[i].json
  {
    hide Utf8.Encode, KeyOf;
    var last := |sets| - 1;
    CacheKey(sets[i].sampleId);
    if i < last {
      LastStored(cache, sets[..last], i);
      if Utf8.Encode(KeyOf(sets[last].sampleId)) == Utf8.Encode(KeyOf(sets[i].sampleId)) {
        KeyInjective(sets[last].sampleId, sets[i].sampleId);
      }
    }
  }

  /** A key that no call names keeps its value, or stays without one. */
  lemma {:induction false} OthersKept(cache: map<Key, string>, sets: seq<SetCall>, key: Key)
    requires forall i :: 0 <= i < |sets| ==> key != Utf8.Encode("sample-cache:" + sets[i].sampleId)
    ensures var after := CacheAfter(cache, sets);
            (key in after <==> key in cache) && (key in cache ==> after[key] == cache[key])
  {
    hide Utf8.Encode, KeyOf;
    if sets != [] {
      var last := |sets| - 1;
      CacheKey(sets[last].sampleId);
      OthersKept(cache, sets[..last], key);
    }
  }

  // ----------------------------------------------------------------- publishing

  /** A message of a channel. */
  datatype Message = Message(channel: Key, text: string)

  function ChannelOf(id: string): Key {
    Utf8.Encode("sample-channel:" + id)
  }

  /** What a run of `set_sample` publishes. */
  function Published(sets: seq<SetCall>): seq<Message> {
    if sets == [] then []
    else Published(sets[..|sets| - 1]) + [Message(ChannelOf(sets[|sets| - 1].sampleId), sets[|sets| - 1].json)]
  }

  /** What a subscriber of one channel hears. */
  function Heard(messages: seq<Message>, channel: Key): seq<string> {
    if messages == [] then []
    else
      var last := messages[|messages| - 1];
      Heard(messages[..|messages| - 1], channel) + if last.channel == channel then [last.text] else []
  }

  /** The texts of the calls whose sample has an id. */
  function TextsOf(sets: seq<SetCall>, id: string): seq<string> {
    if sets == [] then [] else TextOf(sets[0], id) + TextsOf(sets[1..], id)
  }

  function TextOf(c: SetCall, id: string): seq<string> {
    if c.sampleId == id then [c.json] else []
  }

  lemma {:induction false} TextsSnoc(sets: seq<SetCall>, c: SetCall, id: string)
    ensures TextsOf(sets + [c], id) == TextsOf(sets, id) + TextOf(c, id)
  {
    hide TextOf;
    if sets == [] {
    } else {
      assert (sets + [c])[1..] == sets[1..] + [c];
      TextsSnoc(sets[1..], c, id);
    }
  }

  lemma ChannelInjective(a: string, b: string)
    requires ChannelOf(a) == ChannelOf(b)
    ensures a == b
  {
    var prefix := "sample-channel:";
    Utf8.RoundTrip(prefix + a);
    Utf8.RoundTrip(prefix + b);
    assert (prefix + a)[|prefix|..] == a && (prefix + b)[|prefix|..] == b;
  }

  /** A subscriber to an id's channel hears the texts of exactly the calls whose
      sample has that id, in order, whatever else is set meanwhile. */
  lemma {:induction false} HeardExactly(sets: seq<SetCall>, id: string)
    ensures Heard(Published(sets), Utf8.Encode("sample-channel:" + id)) == TextsOf(sets, id)
  {
    hide Utf8.Encode;
    if sets != [] {
      var last := |sets| - 1;
      HeardExactly(sets[..last], id);
      assert sets == sets[..last] + [sets[last]];
      TextsSnoc(sets[..last], sets[last], id);
      if ChannelOf(sets[last].sampleId) == ChannelOf(id) {
        ChannelInjective(sets[last].sampleId, id);
      }
      var before := Published(sets[..last]);
      var message := Message(ChannelOf(sets[last].sampleId), sets[last].json);
      assert (before + [message])[..|before|] == before;
    }
  }

  /** The keyspace as far as samples go, and the messages published.
      `set_sample` names both the key and the channel after the sample's own
      metric id; its `metric_id` argument has no effect. */
  class Redis {
    var cache: map<Key, string>
    var published: seq<Message>

    method SetSample(metricId: string, sampleMetricId: string, sampleJson: string)
      modifies this
      ensures cache == old(cache)[Utf8.Encode("sample-cache:" + sampleMetricId) := sampleJson]
      ensures published == old(published) + [Message(Utf8.Encode("sample-channel:" + sampleMetricId), sampleJson)]
      ensures cache == CacheAfter(old(cache), [SetCall(metricId, sampleMetricId, sampleJson)])
    {
      hide Utf8.Encode;
      CacheKey(sampleMetricId);
      assert [SetCall(metricId, sampleMetricId, sampleJson)][..0] == [];
      cache := cache[Utf8.Encode(KeyOf(sampleMetricId)) := sampleJson];
      published := published + [Message(ChannelOf(sampleMetricId), sampleJson)];
    }

    /** `get_sample`, up to parsing the text. */
    method GetSample(metricId: string) returns (text: Option<string>)
      ensures text == if Utf8.Encode("sample-cache:" + metricId) in cache then Some(cache[Utf8.Encode("sample-cache:" + metricId)]) else None
    {
      CacheKey(metricId);
      var key := Utf8.Encode(KeyOf(metricId));
      text := if key in cache then Some(cache[key]) else None;
    }
  }
}
