/**
 * `validateApiKey`: the optional bearer-key gate. The configured key list
 * (`env.API_KEYS`, comma-separated) and the request's `Authorization` header
 * are parameters; `None` stands for an absent value.
 */
module ApiKeyGate {
  import opened Wrappers
  import opened JsStrings

  const BearerScheme: string := "Bearer"

  /** `new Set(env?.API_KEYS ? env.API_KEYS.split(',') : [])`. */
  function KeySet(apiKeys: Option<string>): (keys: set<string>)
    ensures apiKeys.Some? && apiKeys.value != "" ==> Split(apiKeys.value, ',')[0] in keys
  {
    if apiKeys.Some? && apiKeys.value != "" then (set k | k in Split(apiKeys.value, ',')) else {}
  }

  /** Whether the request may pass. */
  function ValidateApiKey(apiKeys: Option<string>, authorization: Option<string>): (accepted: bool)
    ensures apiKeys.None? || apiKeys.value == "" ==> accepted
    ensures apiKeys.Some? && apiKeys.value != "" && (authorization.None? || authorization.value == "") ==> !accepted
  {
    var keys := KeySet(apiKeys);
    if |keys| == 0 then true
    else if authorization.None? || authorization.value == "" then false
    else
      var tokens := Split(authorization.value, ' ');
      var bearer := tokens[0];
      var apiKey := if |tokens| >= 2 then Some(tokens[1]) else None;
      !(bearer != BearerScheme || apiKey.None? || apiKey.value == "" || apiKey.value !in keys)
  }

  /** With keys configured, `Bearer <key>` passes for every listed non-empty
      key, whatever follows after a further space. */
  lemma AcceptsListedBearerKey(apiKeys: string, key: string, suffix: string)
    requires apiKeys != "" && key != "" && ' ' !in key && key in Split(apiKeys, ',')
    requires suffix == "" || suffix[0] == ' '
    ensures ValidateApiKey(Some(apiKeys), Some(BearerScheme + " " + key + suffix))
  {
    BearerHeaderTokens(key, suffix);
    var keys := KeySet(Some(apiKeys));
    assert key in keys;
  }

  /** The first two space-separated tokens of `Bearer <key><suffix>`. */
  lemma BearerHeaderTokens(key: string, suffix: string)
    requires ' ' !in key
    requires suffix == "" || suffix[0] == ' '
    ensures var tokens := Split(BearerScheme + " " + key + suffix, ' ');
      |tokens| >= 2 && tokens[0] == BearerScheme && tokens[1] == key
  {
    var rest := key + suffix;
    assert BearerScheme + " " + key + suffix == BearerScheme + [' '] + rest;
    SplitAtSeparator(BearerScheme, ' ', rest);
    SplitNoSeparator(BearerScheme, ' ');
    FirstToken(key, suffix);
  }

  /** A space-free key followed by nothing or a space is the first token. */
  lemma FirstToken(key: string, suffix: string)
    requires ' ' !in key
    requires suffix == "" || suffix[0] == ' '
    ensures Split(key + suffix, ' ')[0] == key
  {
    SplitNoSeparator(key, ' ');
    if suffix == "" {
      assert key + suffix == key;
    } else {
      assert key + suffix == key + [' '] + suffix[1..];
      SplitAtSeparator(key, ' ', suffix[1..]);
    }
  }

  /** With keys configured, a request passes only with a header
      `Bearer <key>` (possibly followed by a space and more) where `<key>` is
      a non-empty listed key. */
  lemma AcceptedHeaderIsBearerKey(apiKeys: string, header: string)
    requires apiKeys != ""
    requires ValidateApiKey(Some(apiKeys), Some(header))
    ensures |Split(header, ' ')| >= 2
    ensures var key := Split(header, ' ')[1];
      key != "" && key in Split(apiKeys, ',') &&
      StartsWith(header, BearerScheme + " " + key) &&
      (|header| == |BearerScheme + " " + key| || header[|BearerScheme + " " + key|] == ' ')
  {
    AcceptedTokens(apiKeys, header);
    HeaderShape(header);
  }

  /** What an accepted header's tokens are. */
  lemma AcceptedTokens(apiKeys: string, header: string)
    requires apiKeys != ""
    requires ValidateApiKey(Some(apiKeys), Some(header))
    ensures var tokens := Split(header, ' ');
      |tokens| >= 2 && tokens[0] == BearerScheme && tokens[1] != "" && tokens[1] in Split(apiKeys, ',')
  {
  }

  /** A header is its first token, a space and the second token, then either
      nothing or a space and the rest. */
  lemma HeaderShape(header: string)
    requires |Split(header, ' ')| >= 2 && Split(header, ' ')[0] == BearerScheme
    ensures var prefix := BearerScheme + " " + Split(header, ' ')[1];
      StartsWith(header, prefix) && (|header| == |prefix| || header[|prefix|] == ' ')
  {
    var tokens := Split(header, ' ');
    JoinSplit(header, ' ');
    var key := tokens[1];
    var prefix := BearerScheme + " " + key;
    if |tokens| == 2 {
      assert tokens[1..] == [key];
      assert header == prefix;
    } else {
      var more := Join(tokens[2..], " ");
      assert tokens[1..][1..] == tokens[2..];
      assert Join(tokens[1..], " ") == key + " " + more;
      assert header == prefix + (" " + more);
    }
  }
}
