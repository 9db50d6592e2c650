/**
 * The Nicehash client (`NicehashService`): the HMAC signing input and the
 * authentication headers of a call, the POWER_MODE request and its result, and
 * the choice of the configured rig from the rig list.
 *
 * Strings stand for their UTF-8 bytes: the encoding maps a concatenation to the
 * concatenation of the encodings and the character NUL to the byte 0, so the
 * bytes passed to the MAC are the encoding of `SigningInput`. HMAC-SHA256
 * followed by hex encoding is the parameter `hmacHex(secret, message)`.
 */
module Nicehash {
  import opened Wrappers
  import Text

  /** `POWER_MODE`. */
  datatype PowerMode = Unknown | Mixed | High | Medium | Low

  /** The `statusValue` of each mode. */
  function StatusValue(m: PowerMode): (v: real)
    ensures 5.0 <= v <= 15.0 && v.Floor as real == v
  {
    match m
    case Unknown => 5.0
    case Mixed => 15.0
    case High => 9.0
    case Medium => 11.0
    case Low => 12.0
  }

  /** Distinct modes have distinct status values, so the number sent to Ambient names the mode. */
  lemma StatusValueInjective(m: PowerMode, n: PowerMode)
    ensures StatusValue(m) == StatusValue(n) <==> m == n
  {
  }

  /** The enum constant's name, which `"" + mode` produces. */
  function Name(m: PowerMode): string {
    match m
    case Unknown => "UNKNOWN"
    case Mixed => "MIXED"
    case High => "HIGH"
    case Medium => "MEDIUM"
    case Low => "LOW"
  }

  function ModeFromName(s: string): (r: Option<PowerMode>)
    ensures r.Some? ==> Name(r.value) == s
  {
    if s == "UNKNOWN" then Some(Unknown)
    else if s == "MIXED" then Some(Mixed)
    else if s == "HIGH" then Some(High)
    else if s == "MEDIUM" then Some(Medium)
    else if s == "LOW" then Some(Low)
    else None
  }

  lemma ModeFromNameOfName(m: PowerMode)
    ensures ModeFromName(Name(m)) == Some(m)
  {
  }

  /** The API settings: organisation, key pair and the rig to control. */
  datatype NicehashConfig = NicehashConfig(orgId: string, apiKey: string, apiSecret: string, rigId: string)

  /** The part of a rig's JSON record the controller reads; a missing mode is `None`. */
  datatype RigStatus = RigStatus(rigId: string, name: string, rigPowerMode: Option<PowerMode>)

  const Nul: char := '\0'
  const RigsPath: string := "/main/api/v2/mining/rigs2"
  const StatusPath: string := "/main/api/v2/mining/rigs/status2"

  /**
   * The fields covered by the signature, in order: key, time, nonce, an empty
   * field, organisation, an empty field, httpMethod, path, the query (nothing when
   * absent) and, for a call with a body, the body.
   */
  function SignedFields(apiKey: string, time: string, nonce: string, orgId: string,
                        httpMethod: string, path: string, query: Option<string>, body: Option<string>): (fs: seq<string>)
    ensures |fs| == if body.Some? then 10 else 9
  {
    [apiKey, time, nonce, "", orgId, "", httpMethod, path, query.GetOr("")]
    + (if body.Some? then [body.value] else [])
  }

  /** The signed message: the signed fields with one NUL between neighbours. */
  function SigningInput(apiKey: string, time: string, nonce: string, orgId: string,
                        httpMethod: string, path: string, query: Option<string>, body: Option<string>): (s: string)
    ensures |s| > |apiKey| && s[..|apiKey|] == apiKey && s[|apiKey|] == Nul
  {
    Text.Join(SignedFields(apiKey, time, nonce, orgId, httpMethod, path, query, body), Nul)
  }

  /** Appending a field to a join appends a separator and the field. */
  lemma {:induction false} JoinSnoc(fields: seq<string>, f: string, sep: char)
    requires |fields| >= 1
    ensures Text.Join(fields + [f], sep) == Text.Join(fields, sep) + [sep] + f
  {
    if |fields| > 1 {
      assert (fields + [f])[1..] == fields[1..] + [f];
      JoinSnoc(fields[1..], f, sep);
    }
  }

  /**
   * `createAuthHeader`: the message is fed to the MAC piece by piece; the
   * headers carry the time, the nonce, key and digest, and the organisation.
   */
  method CreateAuthHeader(config: NicehashConfig, time: string, httpMethod: string, path: string,
                          query: Option<string>, body: Option<string>, nonce: string,
                          hmacHex: (string, string) -> string)
    returns (message: string, headers: map<string, string>)
    ensures message == SigningInput(config.apiKey, time, nonce, config.orgId, httpMethod, path, query, body)
    ensures headers.Keys == {"X-Time", "X-Nonce", "X-Auth", "X-Organization-Id"}
    ensures headers["X-Time"] == time && headers["X-Nonce"] == nonce
    ensures headers["X-Auth"] == config.apiKey + ":" + hmacHex(config.apiSecret, message)
    ensures headers["X-Organization-Id"] == config.orgId
  {
    // each step appends one NUL and one field: key 0 time 0 nonce 0 0 orgId 0 0 method 0 path
    message := config.apiKey + [Nul] + time + [Nul] + nonce + [Nul] + [Nul] + config.orgId
               + [Nul] + [Nul] + httpMethod + [Nul] + path + [Nul];
    // then the query bytes when there is a query
    if query.Some? {
      message := message + query.value;
    }
    // 0 and the body when there is a body
    if body.Some? {
      message := message + [Nul] + body.value;
    }
    SigningInputLayout(config.apiKey, time, nonce, config.orgId, httpMethod, path, query, body);

    var digest := hmacHex(config.apiSecret, message);
    headers := map[];
    headers := headers["X-Time" := time];
    headers := headers["X-Nonce" := nonce];
    headers := headers["X-Auth" := config.apiKey + ":" + digest];
    headers := headers["X-Organization-Id" := config.orgId];
  }

  /** The signing input written out: fields and NULs in the order the MAC receives them. */
  lemma SigningInputLayout(apiKey: string, time: string, nonce: string, orgId: string,
                           httpMethod: string, path: string, query: Option<string>, body: Option<string>)
    ensures SigningInput(apiKey, time, nonce, orgId, httpMethod, path, query, body)
         == apiKey + [Nul] + time + [Nul] + nonce + [Nul] + [Nul] + orgId + [Nul] + [Nul] + httpMethod
            + [Nul] + path + [Nul] + query.GetOr("") + (if body.Some? then [Nul] + body.value else [])
  {
    var f1 := [apiKey];
    var m1 := apiKey;
    assert Text.Join(f1, Nul) == m1;
    JoinSnoc(f1, time, Nul);
    var f2, m2 := f1 + [time], m1 + [Nul] + time;
    JoinSnoc(f2, nonce, Nul);
    var f3, m3 := f2 + [nonce], m2 + [Nul] + nonce;
    JoinSnoc(f3, "", Nul);
    var f4, m4 := f3 + [""], m3 + [Nul];
    assert m3 + [Nul] + "" == m4;
    JoinSnoc(f4, orgId, Nul);
    var f5, m5 := f4 + [orgId], m4 + [Nul] + orgId;
    JoinSnoc(f5, "", Nul);
    var f6, m6 := f5 + [""], m5 + [Nul];
    assert m5 + [Nul] + "" == m6;
    JoinSnoc(f6, httpMethod, Nul);
    var f7, m7 := f6 + [httpMethod], m6 + [Nul] + httpMethod;
    JoinSnoc(f7, path, Nul);
    var f8, m8 := f7 + [path], m7 + [Nul] + path;
    JoinSnoc(f8, query.GetOr(""), Nul);
    var f9, m9 := f8 + [query.GetOr("")], m8 + [Nul] + query.GetOr("");
    assert Text.Join(f9, Nul) == m9;
    assert f9 == [apiKey, time, nonce, "", orgId, "", httpMethod, path, query.GetOr("")];
    if body.Some? {
      JoinSnoc(f9, body.value, Nul);
      assert SignedFields(apiKey, time, nonce, orgId, httpMethod, path, query, body) == f9 + [body.value];
      assert m9 + [Nul] + body.value == m9 + ([Nul] + body.value);
    } else {
      assert SignedFields(apiKey, time, nonce, orgId, httpMethod, path, query, body) == f9;
      assert m9 + [] == m9;
    }
  }

  predicate NoNul(s: string) {
    Nul !in s
  }

  /**
   * The signed message determines its fields: splitting it at the NUL bytes
   * gives back key, time, nonce, the empty fields, organisation, httpMethod, path,
   * query and body, when none of them holds a NUL.
   */
  lemma SigningInputFields(apiKey: string, time: string, nonce: string, orgId: string,
                           httpMethod: string, path: string, query: Option<string>, body: Option<string>)
    requires NoNul(apiKey) && NoNul(time) && NoNul(nonce) && NoNul(orgId) && NoNul(httpMethod) && NoNul(path)
    requires query.Some? ==> NoNul(query.value)
    requires body.Some? ==> NoNul(body.value)
    ensures Text.Split(SigningInput(apiKey, time, nonce, orgId, httpMethod, path, query, body), Nul)
         == SignedFields(apiKey, time, nonce, orgId, httpMethod, path, query, body)
  {
    var fs := SignedFields(apiKey, time, nonce, orgId, httpMethod, path, query, body);
    assert Text.NoSeparator(fs, Nul) by {
      assert Nul !in "";
    }
    Text.SplitJoin(fs, Nul);
  }

  /** An absent query signs like an empty one: no separator follows the query bytes. */
  lemma AbsentQuerySignsAsEmpty(apiKey: string, time: string, nonce: string, orgId: string,
                                httpMethod: string, path: string, body: Option<string>)
    ensures SigningInput(apiKey, time, nonce, orgId, httpMethod, path, None, body)
         == SigningInput(apiKey, time, nonce, orgId, httpMethod, path, Some(""), body)
  {
  }

  /** A call with a body signs the unsigned message, one NUL, then the body. */
  lemma BodyAppendedAfterOneNul(apiKey: string, time: string, nonce: string, orgId: string,
                                httpMethod: string, path: string, query: Option<string>, body: string)
    ensures SigningInput(apiKey, time, nonce, orgId, httpMethod, path, query, Some(body))
         == SigningInput(apiKey, time, nonce, orgId, httpMethod, path, query, None) + [Nul] + body
  {
    var fs := SignedFields(apiKey, time, nonce, orgId, httpMethod, path, query, None);
    assert SignedFields(apiKey, time, nonce, orgId, httpMethod, path, query, Some(body)) == fs + [body];
    JoinSnoc(fs, body, Nul);
  }

  // ---------------------------------------------------------------------------
  // POWER_MODE

  const BodyPrefix: string := "{\"rigId\":\""
  const BodyMiddle: string := "\",\"action\":\"POWER_MODE\",\"options\":[\""
  const BodySuffix: string := "\"]}"

  /** The POWER_MODE request body, built by concatenation (no JSON escaping). */
  function PowerModeBody(rigId: string, mode: PowerMode): (b: string)
    ensures |b| >= |BodyPrefix| + |rigId| + |BodySuffix|
    ensures b[..|BodyPrefix|] == BodyPrefix && b[|BodyPrefix|..|BodyPrefix| + |rigId|] == rigId
    ensures b[|b| - |BodySuffix|..] == BodySuffix
  {
    BodyPrefix + rigId + BodyMiddle + Name(mode) + BodySuffix
  }

  /** Reads rig id and mode back from a POWER_MODE body. */
  function ParsePowerModeBody(b: string): Option<(string, PowerMode)> {
    if |b| < |BodyPrefix| || b[..|BodyPrefix|] != BodyPrefix then None
    else
      var rest := b[|BodyPrefix|..];
      var k := Text.IndexOf(rest, '"');
      var tail := rest[k..];
      if |tail| < |BodyMiddle| + |BodySuffix|
         || tail[..|BodyMiddle|] != BodyMiddle
         || tail[|tail| - |BodySuffix|..] != BodySuffix
      then None
      else
        var mode := ModeFromName(tail[|BodyMiddle|..|tail| - |BodySuffix|]);
        if mode.None? then None else Some((rest[..k], mode.value))
  }

  /** Where the pieces of `p + r + m + n + s` sit, when `m` starts with the first quote. */
  lemma BodyLayout(p: string, r: string, m: string, n: string, s: string)
    requires |m| > 0 && m[0] == '"' && '"' !in r
    ensures var b := p + r + m + n + s;
      && b[..|p|] == p
      && var rest := b[|p|..];
      && Text.IndexOf(rest, '"') == |r|
      && rest[..|r|] == r
      && rest[|r|..] == m + n + s
  {
    var b := p + r + m + n + s;
    var rest := b[|p|..];
    assert rest == r + m + n + s;
    assert rest[|r|] == '"';
  }

  /** The middle of `m + n + s`, between `m` and `s`, is `n`. */
  lemma TailLayout(m: string, n: string, s: string)
    ensures var tail := m + n + s;
      && tail[..|m|] == m
      && tail[|tail| - |s|..] == s
      && tail[|m|..|tail| - |s|] == n
  {
  }

  /** The body names the rig and the mode: a rig id without a quote and the mode can be read back. */
  lemma ParsePowerModeBodyOfBody(rigId: string, mode: PowerMode)
    requires '"' !in rigId
    ensures ParsePowerModeBody(PowerModeBody(rigId, mode)) == Some((rigId, mode))
  {
    BodyLayout(BodyPrefix, rigId, BodyMiddle, Name(mode), BodySuffix);
    TailLayout(BodyMiddle, Name(mode), BodySuffix);
    ModeFromNameOfName(mode);
  }

  /** A reply of the status endpoint: its `success` and `message` fields, `None` when missing. */
  datatype StatusReply = StatusReply(success: Option<bool>, message: Option<string>)

  datatype NicehashError = MissingField(field: string)

  /** A signed HTTP request. */
  datatype SignedRequest = SignedRequest(verb: string, path: string, headers: map<string, string>, body: Option<string>)

  /**
   * `setRigPowerMode`: a signed POST of the POWER_MODE body; true when the
   * reply's `success` is true, false (after reading `message`) when it is false.
   * A missing field is the source's NullPointerException.
   */
  method SetRigPowerMode(config: NicehashConfig, time: string, mode: PowerMode, nonce: string,
                         hmacHex: (string, string) -> string, reply: StatusReply)
    returns (request: SignedRequest, signed: string, result: Result<bool, NicehashError>)
    ensures request.verb == "POST" && request.path == StatusPath
    ensures request.body == Some(PowerModeBody(config.rigId, mode))
    ensures signed == SigningInput(config.apiKey, time, nonce, config.orgId, "POST", StatusPath, None, request.body)
    ensures "X-Auth" in request.headers
    ensures request.headers["X-Auth"] == config.apiKey + ":" + hmacHex(config.apiSecret, signed)
    ensures result == Ok(true) <==> reply.success == Some(true)
    ensures result == Ok(false) <==> reply.success == Some(false) && reply.message.Some?
    ensures result.Err? <==> reply.success.None? || (reply.success == Some(false) && reply.message.None?)
  {
    var body := PowerModeBody(config.rigId, mode);
    var headers;
    signed, headers := CreateAuthHeader(config, time, "POST", StatusPath, None, Some(body), nonce, hmacHex);
    request := SignedRequest("POST", StatusPath, headers, Some(body));
    if reply.success.None? {
      result := Err(MissingField("success"));
    } else if reply.success.value {
      result := Ok(true);
    } else if reply.message.None? {
      result := Err(MissingField("message"));
    } else {
      result := Ok(false);
    }
  }

  /** The POWER_MODE body holds no NUL when the rig id holds none. */
  lemma PowerModeBodyNoNul(rigId: string, mode: PowerMode)
    requires NoNul(rigId)
    ensures NoNul(PowerModeBody(rigId, mode))
  {
    assert NoNul(BodyPrefix) && NoNul(BodyMiddle) && NoNul(BodySuffix);
    assert NoNul(Name(mode));
  }

  /** The same string is signed and sent: it is the last field of the signed message. */
  lemma SignedBodyIsSentBody(config: NicehashConfig, time: string, nonce: string, mode: PowerMode)
    requires NoNul(config.apiKey) && NoNul(time) && NoNul(nonce) && NoNul(config.orgId) && NoNul(config.rigId)
    ensures var parts := Text.Split(SigningInput(config.apiKey, time, nonce, config.orgId, "POST", StatusPath,
                                                 None, Some(PowerModeBody(config.rigId, mode))), Nul);
      |parts| == 10 && parts[9] == PowerModeBody(config.rigId, mode)
  {
    var body := PowerModeBody(config.rigId, mode);
    PowerModeBodyNoNul(config.rigId, mode);
    assert NoNul("POST") && NoNul(StatusPath);
    SigningInputFields(config.apiKey, time, nonce, config.orgId, "POST", StatusPath, None, Some(body));
  }

  predicate NoMatchBefore(rigs: seq<RigStatus>, rigId: string, n: nat)
    requires n <= |rigs|
  {
    forall j :: 0 <= j < n ==> rigs[j].rigId != rigId
  }

  /** `getRigStatus`: the first rig of the list whose id is the configured one, else `null`. */
  method GetRigStatus(rigs: seq<RigStatus>, rigId: string) returns (r: Option<RigStatus>)
    ensures r.None? <==> NoMatchBefore(rigs, rigId, |rigs|)
    ensures r.Some? ==> exists i :: 0 <= i < |rigs| && rigs[i] == r.value && NoMatchBefore(rigs, rigId, i)
    ensures r.Some? ==> r.value.rigId == rigId
  {
    var i := 0;
    while i < |rigs|
      invariant 0 <= i <= |rigs|
      invariant NoMatchBefore(rigs, rigId, i)
    {
      if rigs[i].rigId == rigId {
        return Some(rigs[i]);
      }
      i := i + 1;
    }
    return None;
  }
}
