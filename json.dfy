/**
 * The JSON side of the response renderer. A response body that parses as a
 * JSON object is read into `OrderedJson`, a `BTreeMap<String, Value>`: one
 * entry per distinct key, the last occurrence of a key winning, entries kept
 * in ascending key order. This module models that map as the sequence of its
 * entries in iteration order, built by the map's own `insert`.
 */
module Json {
  import opened Wrappers
  import opened Ordering

  /**
   * `serde_json::Value`, as this model chooses to represent it: a number is
   * kept as text and an object as its members in document order. serde_json
   * itself normalises numbers and stores nested objects in a map; how nested
   * values are laid out when printed is left to the pretty-printing oracle.
   */
  datatype JsonValue =
    | Null
    | Bool(b: bool)
    | Number(text: string)
    | Str(s: string)
    | Array(items: seq<JsonValue>)
    | Object(members: seq<Member>)

  datatype Member = Member(key: string, value: JsonValue)

  /** Strictly before in the order of `String`. */
  predicate LexLess(a: string, b: string) { a != b && LexLeq(a, b) }

  /** The entries of a `BTreeMap` as it iterates them: keys strictly ascending. */
  predicate StrictlyAscending(es: seq<Member>)
  {
    forall i, j :: 0 <= i < j < |es| ==> LexLess(es[i].key, es[j].key)
  }

  function Keys(es: seq<Member>): (ks: set<string>)
    ensures forall i :: 0 <= i < |es| ==> es[i].key in ks
    ensures forall k :: k in ks ==> exists i :: 0 <= i < |es| && es[i].key == k
  {
    if es == [] then {} else {es[0].key} + Keys(es[1..])
  }

  /** The value stored under `k`: that of the first entry with key `k`. */
  function Lookup(es: seq<Member>, k: string): (v: Option<JsonValue>)
    ensures v.Some? <==> k in Keys(es)
  {
    if es == [] then None
    else if es[0].key == k then Some(es[0].value)
    else Lookup(es[1..], k)
  }

  /** `BTreeMap::insert`: overwrite the entry with the same key, else add one in key order. */
  function InsertMember(es: seq<Member>, m: Member): (r: seq<Member>)
    ensures Keys(r) == Keys(es) + {m.key}
    ensures Lookup(r, m.key) == Some(m.value)
    ensures forall k :: k != m.key ==> Lookup(r, k) == Lookup(es, k)
  {
    if es == [] then [m]
    else if es[0].key == m.key then [m] + es[1..]
    else if LexLeq(m.key, es[0].key) then [m] + es
    else [es[0]] + InsertMember(es[1..], m)
  }

  lemma AscendingTail(es: seq<Member>)
    requires StrictlyAscending(es) && es != []
    ensures StrictlyAscending(es[1..])
  {
    forall i, j | 0 <= i < j < |es[1..]| ensures LexLess(es[1..][i].key, es[1..][j].key) {
      assert es[1..][i] == es[i + 1] && es[1..][j] == es[j + 1];
    }
  }

  lemma AscendingCons(h: Member, t: seq<Member>)
    requires StrictlyAscending(t)
    requires forall j :: 0 <= j < |t| ==> LexLess(h.key, t[j].key)
    ensures StrictlyAscending([h] + t)
  {
    var r := [h] + t;
    forall i, j | 0 <= i < j < |r| ensures LexLess(r[i].key, r[j].key) {
      assert r[j] == t[j - 1];
      if i > 0 { assert r[i] == t[i - 1]; }
    }
  }

  /** A key below the head of an ascending list is below every key of it. */
  lemma BelowHead(k: string, es: seq<Member>)
    requires StrictlyAscending(es) && es != []
    requires LexLess(k, es[0].key)
    ensures forall j :: 0 <= j < |es| ==> LexLess(k, es[j].key)
  {
    forall j | 0 < j < |es| ensures LexLess(k, es[j].key) {
      LexLeqTransitive(k, es[0].key, es[j].key);
      if k == es[j].key {
        LexLeqAntisymmetric(es[0].key, es[j].key);
      }
    }
  }

  lemma {:induction false} InsertMemberAscending(es: seq<Member>, m: Member)
    requires StrictlyAscending(es)
    ensures StrictlyAscending(InsertMember(es, m))
  {
    if es == [] {
    } else if es[0].key == m.key {
      AscendingTail(es);
      if |es| > 1 { BelowHead(m.key, es[1..]); }
      AscendingCons(m, es[1..]);
    } else if LexLeq(m.key, es[0].key) {
      BelowHead(m.key, es);
      AscendingCons(m, es);
    } else {
      LexLeqTotal(m.key, es[0].key);
      AscendingTail(es);
      InsertMemberAscending(es[1..], m);
      var tail := InsertMember(es[1..], m);
      forall j | 0 <= j < |tail| ensures LexLess(es[0].key, tail[j].key) {
        assert tail[j].key in Keys(es[1..]) + {m.key};
        if tail[j].key != m.key {
          var k :| 0 <= k < |es[1..]| && es[1..][k].key == tail[j].key;
          assert es[k + 1].key == tail[j].key;
        }
      }
      AscendingCons(es[0], tail);
    }
  }

  /** Deserializing an object's members into `OrderedJson`: insert them in document order. */
  function Collect(members: seq<Member>): seq<Member>
  {
    if members == [] then []
    else InsertMember(Collect(members[..|members| - 1]), members[|members| - 1])
  }

  /** The value of the last member with key `k`, if any. */
  function LastValue(members: seq<Member>, k: string): (v: Option<JsonValue>)
    ensures v.Some? <==> exists i :: 0 <= i < |members| && members[i].key == k
  {
    if members == [] then None
    else if members[|members| - 1].key == k then Some(members[|members| - 1].value)
    else LastValue(members[..|members| - 1], k)
  }

  lemma {:induction false} CollectAscending(members: seq<Member>)
    ensures StrictlyAscending(Collect(members))
  {
    if members != [] {
      CollectAscending(members[..|members| - 1]);
      InsertMemberAscending(Collect(members[..|members| - 1]), members[|members| - 1]);
    }
  }

  /** Every key of the object maps to the value of its last occurrence: later duplicates win. */
  lemma {:induction false} CollectLastWins(members: seq<Member>, k: string)
    ensures Lookup(Collect(members), k) == LastValue(members, k)
  {
    if members != [] {
      CollectLastWins(members[..|members| - 1], k);
    }
  }

  /** Lookup in an ascending entry list finds the one entry with that key. */
  lemma LookupAt(es: seq<Member>, i: nat)
    requires StrictlyAscending(es) && i < |es|
    ensures Lookup(es, es[i].key) == Some(es[i].value)
  {
    if i > 0 {
      assert es[0].key != es[i].key;
      assert StrictlyAscending(es[1..]) by {
        forall a, b | 0 <= a < b < |es[1..]| ensures LexLess(es[1..][a].key, es[1..][b].key) {
          assert es[1..][a] == es[a + 1] && es[1..][b] == es[b + 1];
        }
      }
      LookupAt(es[1..], i - 1);
    }
  }
}
