/**
 * The AmbientData channel client (`AmbientService.send`): the JSON document
 * posted to `/api/v2/channels/<channelId>/dataarray`, with `created` and one
 * `d<i>` member per non-null value. Formatting the timestamp is not modelled:
 * `created` arrives already rendered as ISO local date-time in UTC.
 */
module Ambient {
  import opened Wrappers
  import Text
  import Json

  const HttpOk: int := 200
  const UrlPrefix: string := "http://54.65.206.59/api/v2/channels/"
  const UrlSuffix: string := "/dataarray"

  /** The channel settings `send` reads (the read key is unused). */
  datatype AmbientConfig = AmbientConfig(channelId: int, writeKey: string)

  datatype AmbientError = HttpStatus(code: int)   // IOException "Ambient Response Code ..."

  /** The member name of the `i`-th value (counting from 1): `"d" + i`. */
  function DataKey(i: nat): (k: string)
    ensures |k| >= 2 && k[0] == 'd' && k[1..] == Text.NatToString(i)
  {
    "d" + Text.NatToString(i)
  }

  /** Keys of distinct positions are distinct, and none is `created`. */
  lemma DataKeyInjective(i: nat, j: nat)
    ensures DataKey(i) == DataKey(j) <==> i == j
    ensures DataKey(i) != "created"
  {
    if DataKey(i) == DataKey(j) {
      assert DataKey(i)[1..] == DataKey(j)[1..];
      Text.NatToStringInjective(i, j);
    }
    assert DataKey(i)[0] != "created"[0];
  }

  /**
   * The data object after the first `n` turns of the loop: `created` first,
   * then one `put` per non-null value.
   */
  function DataNode(created: string, datas: seq<Option<real>>, n: nat): seq<Json.Field>
    requires n <= |datas|
  {
    if n == 0 then [Json.Field("created", Json.JStr(created))]
    else if datas[n - 1].Some? then Json.Put(DataNode(created, datas, n - 1), DataKey(n), Json.JNum(datas[n - 1].value))
    else DataNode(created, datas, n - 1)
  }

  /** What a consumer reads from member `d<i>`: the value, or nothing when it was null. */
  function Reading(datas: seq<Option<real>>, i: nat): Option<Json.Json>
    requires 1 <= i <= |datas|
  {
    if datas[i - 1].Some? then Some(Json.JNum(datas[i - 1].value)) else None
  }

  /**
   * Member `d<i>` is present exactly when `datas[i-1]` is non-null and then
   * carries it; `created` is kept. Null entries do not shift later numbers.
   */
  lemma {:induction false} DataNodeLookup(created: string, datas: seq<Option<real>>, n: nat)
    requires n <= |datas|
    ensures Json.Lookup(DataNode(created, datas, n), "created") == Some(Json.JStr(created))
    ensures forall i :: 1 <= i <= n ==> Json.Lookup(DataNode(created, datas, n), DataKey(i)) == Reading(datas, i)
    ensures forall i :: n < i ==> Json.Lookup(DataNode(created, datas, n), DataKey(i)).None?
  {
    if n > 0 {
      DataNodeLookup(created, datas, n - 1);
      forall i: nat {
        DataKeyInjective(i, n);
      }
    }
  }

  /** Every member of the data object is `created` or the key of a non-null value. */
  lemma {:induction false} DataNodeKeys(created: string, datas: seq<Option<real>>, n: nat, k: string)
    requires n <= |datas|
    requires Json.HasKey(DataNode(created, datas, n), k)
    ensures k == "created" || exists i :: 1 <= i <= n && datas[i - 1].Some? && k == DataKey(i)
  {
    if n > 0 {
      var prev := DataNode(created, datas, n - 1);
      if datas[n - 1].Some? && k == DataKey(n) {
      } else {
        assert Json.Lookup(prev, k) == Json.Lookup(DataNode(created, datas, n), k);
        DataNodeKeys(created, datas, n - 1, k);
      }
    }
  }

  /**
   * The members appear in the order the loop meets the values: each `put` adds
   * a new key at the end.
   */
  lemma DataNodeAppends(created: string, datas: seq<Option<real>>, n: nat)
    requires 1 <= n <= |datas| && datas[n - 1].Some?
    ensures DataNode(created, datas, n)
         == DataNode(created, datas, n - 1) + [Json.Field(DataKey(n), Json.JNum(datas[n - 1].value))]
  {
    if Json.HasKey(DataNode(created, datas, n - 1), DataKey(n)) {
      DataNodeKeys(created, datas, n - 1, DataKey(n));
      DataKeyInjective(n, n);
      forall i | 1 <= i <= n - 1 {
        DataKeyInjective(i, n);
      }
    }
  }

  /** The channel URL. */
  function ChannelUrl(channelId: int): (url: string)
    ensures |url| == |UrlPrefix| + |Text.IntToString(channelId)| + |UrlSuffix|
    ensures url[..|UrlPrefix|] == UrlPrefix
    ensures url[|url| - |UrlSuffix|..] == UrlSuffix
    ensures url[|UrlPrefix|..|url| - |UrlSuffix|] == Text.IntToString(channelId)
  {
    UrlPrefix + Text.IntToString(channelId) + UrlSuffix
  }

  /** The loop of `send`: `created`, then `d<i>` for each non-null `datas[i-1]`. */
  method BuildDataNode(created: string, datas: seq<Option<real>>) returns (dataNode: seq<Json.Field>)
    ensures dataNode == DataNode(created, datas, |datas|)
  {
    dataNode := Json.Put([], "created", Json.JStr(created));
    var i := 1;
    while i <= |datas|
      invariant 1 <= i <= |datas| + 1
      invariant dataNode == DataNode(created, datas, i - 1)
    {
      if datas[i - 1].Some? {
        dataNode := Json.Put(dataNode, DataKey(i), Json.JNum(datas[i - 1].value));
      }
      i := i + 1;
    }
  }

  /**
   * `send`: builds `{"writeKey": .., "data": [{"created": .., "d1": .., ..}]}`,
   * posts it, and fails on a status other than 200.
   */
  method Send(info: AmbientConfig, created: string, datas: seq<Option<real>>, status: int)
    returns (url: string, root: Json.Json, result: Result<(), AmbientError>)
    ensures url == ChannelUrl(info.channelId)
    ensures root == Json.JObj([Json.Field("writeKey", Json.JStr(info.writeKey)),
                               Json.Field("data", Json.JArr([Json.JObj(DataNode(created, datas, |datas|))]))])
    ensures result.Ok? <==> status == HttpOk
    ensures result.Err? ==> result.error == HttpStatus(status)
  {
    var rootNode := Json.Put([], "writeKey", Json.JStr(info.writeKey));
    var dataNode := BuildDataNode(created, datas);
    var dataArray := [Json.JObj(dataNode)];
    assert rootNode[0].key != "data";
    rootNode := Json.Put(rootNode, "data", Json.JArr(dataArray));
    root := Json.JObj(rootNode);
    url := UrlPrefix + Text.IntToString(info.channelId) + UrlSuffix;
    if status != HttpOk {
      result := Err(HttpStatus(status));
    } else {
      result := Ok(());
    }
  }
}
