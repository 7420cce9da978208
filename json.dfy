/** Decoded JSON values, as `json.loads` and httpx's `response.json()` produce them. */
module JsonValues {
  import opened Wrappers
  import Parsing
  import Dicts

  /** Objects keep their member order, as Python dicts do. */
  datatype Json =
    | JNull
    | JBool(b: bool)
    | JInt(i: int)
    | JFloat(f: real)
    | JStr(s: string)
    | JArray(items: seq<Json>)
    | JObject(members: seq<(string, Json)>)

  /**
   * `d.get(key)` on an object's members: the value of the LAST member named
   * `key` (a repeated key overwrites the earlier one as `json.loads` builds
   * the dict), or None when absent.
   */
  function Get(members: seq<(string, Json)>, key: string): (r: Option<Json>)
    ensures r.Some? ==> exists k | 0 <= k < |members| ::
      members[k] == (key, r.value) && forall j | k < j < |members| :: members[j].0 != key
    ensures r.None? ==> forall k | 0 <= k < |members| :: members[k].0 != key
  {
    if members == [] then None
    else
      var rest := Get(members[1..], key);
      if rest.Some? then
        var k :| 0 <= k < |members[1..]| && members[1..][k] == (key, rest.value) &&
          forall j | k < j < |members[1..]| :: members[1..][j].0 != key;
        assert members[k + 1] == (key, rest.value);
        rest
      else if members[0].0 == key then Some(members[0].1)
      else None
  }

  /** A key named by exactly one member reads as that member's value. */
  lemma {:induction false} GetUnique(members: seq<(string, Json)>, key: string, k: nat)
    requires k < |members| && members[k].0 == key
    requires forall j | 0 <= j < |members| && j != k :: members[j].0 != key
    ensures Get(members, key) == Some(members[k].1)
  {
    if k == 0 {
      assert forall j | 0 <= j < |members[1..]| :: members[1..][j].0 != key by {
        forall j | 0 <= j < |members[1..]| ensures members[1..][j].0 != key {
          assert members[1..][j] == members[j + 1];
        }
      }
    } else {
      GetUnique(members[1..], key, k - 1);
    }
  }

  /** Appending a member only changes the reading of its own key. */
  lemma {:induction false} GetAppend(members: seq<(string, Json)>, m: (string, Json), key: string)
    ensures Get(members + [m], key) == if m.0 == key then Some(m.1) else Get(members, key)
  {
    if members == [] {
      assert members + [m] == [m];
    } else {
      assert (members + [m])[1..] == members[1..] + [m];
      GetAppend(members[1..], m, key);
    }
  }

  /**
   * The dict `json.loads` builds from an object's members: each member is
   * assigned in turn, so a repeated key keeps the position of its first
   * occurrence and takes the value of its last.
   */
  function AsDict(members: seq<(string, Json)>): (r: seq<(string, Json)>)
    ensures Dicts.UniqueKeys(r)
    ensures r == [] <==> members == []
  {
    if members == [] then []
    else
      var last := members[|members| - 1];
      var before := AsDict(members[..|members| - 1]);
      Dicts.PutKeepsKeysUnique(before, last.0, last.1);
      Dicts.PutKeepsFirstKey(before, last.0, last.1);
      Dicts.Put(before, last.0, last.1)
  }

  /** Looking a key up in the built dict reads the same value as `Get` on the members. */
  lemma {:induction false} AsDictLookup(members: seq<(string, Json)>, key: string)
    ensures Dicts.Lookup(AsDict(members), key) == Get(members, key)
  {
    if members != [] {
      var init := members[..|members| - 1];
      var last := members[|members| - 1];
      AsDictLookup(init, key);
      assert members == init + [last];
      GetAppend(init, last, key);
      Dicts.LookupPut(AsDict(init), last.0, last.1, key);
    }
  }

  /** The Python value a decoded JSON value is, as `parse_float` sees it. */
  function ToPy(j: Json): Parsing.PyValue {
    match j
    case JNull => Parsing.PyNone
    case JBool(b) => Parsing.PyBool(b)
    case JInt(i) => Parsing.PyInt(i)
    case JFloat(f) => Parsing.PyFloat(f)
    case JStr(s) => Parsing.PyStr(s)
    case JArray(_) => Parsing.PyOther("[...]")
    case JObject(_) => Parsing.PyOther("{...}")
  }
}
