/** `serialize(url, data)`: the query string yodel.js appends to a request
    URL, `key=value` pairs joined by '&' with no percent-encoding. */
module Query {
  import opened Text
  import opened Js

  /** `${key}=${data[key]}` for every key of `data`, in key order. */
  function Pairs(h: Host, data: Value): (r: seq<string>)
    requires !IsNullish(data)
    ensures |r| == |Keys(data).value|
  {
    var keys := Keys(data).value;
    seq(|keys|, i requires 0 <= i < |keys| => keys[i] + "=" + Render(h, Get(data, keys[i]).value))
  }

  /** Each pair is a property `Object.keys` lists: its key, '=', and the
      string form of the value listed under that key. */
  lemma PairsAreEntries(h: Host, data: Value)
    requires !IsNullish(data)
    ensures |Pairs(h, data)| == |OwnProps(data).value|
    ensures forall i :: 0 <= i < |Pairs(h, data)| ==>
      Pairs(h, data)[i] == OwnProps(data).value[i].key + "=" + Render(h, OwnProps(data).value[i].val)
  {
    EntriesAgree(data);
  }

  /** The URL `serialize(url, data)` returns: `url` itself for falsy data,
      otherwise `url`, the separator and the query string. */
  function Serialized(h: Host, url: string, data: Value): string {
    if !Truthy(data) then url
    else url + [if '?' in url then '&' else '?'] + Join(Pairs(h, data), '&')
  }

  /** `serialize(url, data)`. */
  method Serialize(h: Host, url: string, data: Value) returns (r: string)
    ensures r == Serialized(h, url, data)
    ensures !Truthy(data) ==> r == url
    ensures Truthy(data) ==> |r| > |url| && r[..|url|] == url
    ensures Truthy(data) ==> r[|url|] == (if '?' in url then '&' else '?')
    ensures Truthy(data) ==> r[|url| + 1..] == Join(Pairs(h, data), '&')
  {
    r := url;
    if Truthy(data) {
      var keys := Keys(data).value;
      var queryString := Join(seq(|keys|, i requires 0 <= i < |keys| =>
        keys[i] + "=" + Render(h, Get(data, keys[i]).value)), '&');
      r := r + [if IndexOf(r, '?') == -1 then '?' else '&'];
      r := r + queryString;
      assert r[|url| + 1..] == queryString;
    }
  }

  /** When no key or rendered value contains '&', splitting the query
      string at '&' yields the pairs again, one per key. */
  lemma QueryStringSplits(h: Host, data: Value)
    requires !IsNullish(data) && Keys(data).value != []
    requires forall k :: 0 <= k < |Pairs(h, data)| ==> '&' !in Pairs(h, data)[k]
    ensures Split(Join(Pairs(h, data), '&'), '&') == Pairs(h, data)
  {
    SplitJoin(Pairs(h, data), '&');
  }

  /** A truthy value without own properties still gets the separator: a
      number, `true` or `{}` turns `url` into `url + '?'` (or `'&'`). */
  lemma NoKeysStillSeparates(h: Host, url: string, data: Value)
    requires Truthy(data) && Keys(data).value == []
    ensures Serialized(h, url, data) == url + [if '?' in url then '&' else '?']
  {
    assert Join(Pairs(h, data), '&') == "";
  }

  /** Each key `k` without '=' is recovered from its pair in the query
      string as the text before the pair's first '='. */
  lemma PairKeyRecovered(h: Host, data: Value, i: nat)
    requires !IsNullish(data) && i < |Keys(data).value|
    requires '=' !in Keys(data).value[i]
    ensures IndexOf(Pairs(h, data)[i], '=') == |Keys(data).value[i]|
    ensures Pairs(h, data)[i][..|Keys(data).value[i]|] == Keys(data).value[i]
  {
    var k := Keys(data).value[i];
    var p := Pairs(h, data)[i];
    assert p == k + "=" + Render(h, Get(data, k).value);
    assert p[|k|] == '=';
    assert p[..|k|] == k;
  }
}
