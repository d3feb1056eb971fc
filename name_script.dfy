/** name.js: prefix each proxy whose server is an IP with the flag of the country
    ip-api.com reports, keeping the old name after a space. */
module NameScript {
  import opened JsValue
  import opened Flags
  import opened FlagBatches

  /** queryIpApi: `response` is what `$.http.get` resolved with (None when it
      threw) and `parse` stands for JSON.parse (None when it throws). The answer
      is the `countryCode` field exactly when the body parses to an object whose
      `status` is the string "success"; every other case rejects. */
  function QueryIpApi(response: Option<Value>, parse: string -> Option<Value>): (a: Answer)
    ensures a.CountryCode? <==>
      && response.Some? && !(response.value.Null? || response.value.Undefined?)
      && var data := parse(ToStr(Prop(response.value, "body")));
      && data.Some? && !(data.value.Null? || data.value.Undefined?)
      && Prop(data.value, "status") == Str("success")
    ensures a.CountryCode? ==> a.code == Prop(parse(ToStr(Prop(response.value, "body"))).value, "countryCode")
  {
    match response
    case None => QueryFailed
    case Some(res) =>
      match Member(res, "body")
      case None => QueryFailed
      case Some(body) =>
        match parse(ToStr(body))
        case None => QueryFailed
        case Some(data) =>
          match Member(data, "status")
          case None => QueryFailed
          case Some(status) =>
            if status == Str("success") then CountryCode(Prop(data, "countryCode")) else QueryFailed
  }

  /** The per-proxy rule: skipped when `onlyFlagIP` is on and the server is not an
      IP; otherwise, when the query yields a string code, the name becomes
      `${flag} ${name}` (the old name converted to a string, with no flag removed);
      a rejected query or a code that is not a string (getFlagEmoji throws) leaves
      the proxy as it was. */
  function Prefix(onlyFlagIP: bool, isIP: Value -> bool, p: Proxy, answer: Answer): Proxy {
    if onlyFlagIP && !isIP(Field(p, "server")) then p
    else if answer.CountryCode? && answer.code.Str? then
      p["name" := Str(FlagEmoji(answer.code.s) + " " + ToStr(Field(p, "name")))]
    else p
  }

  /** The name is the only field that can change; it changes exactly when the
      proxy is not skipped and the query yielded a string code. */
  lemma PrefixEffect(onlyFlagIP: bool, isIP: Value -> bool, p: Proxy, answer: Answer)
    ensures var r := Prefix(onlyFlagIP, isIP, p, answer);
      && (forall k :: k != "name" ==> (k in r <==> k in p) && Field(r, k) == Field(p, k))
      && (if !(onlyFlagIP && !isIP(Field(p, "server"))) && answer.CountryCode? && answer.code.Str?
          then Field(r, "name") == Str(FlagEmoji(answer.code.s) + " " + ToStr(Field(p, "name")))
          else r == p)
  {
  }

  /** The rule on a proxy that is not skipped, with the new name given as `renamed`. */
  lemma PrefixApplied(isIP: Value -> bool, p: Proxy, cc: string, renamed: string)
    requires isIP(Field(p, "server"))
    requires renamed == FlagEmoji(cc) + " " + ToStr(Field(p, "name"))
    ensures Prefix(true, isIP, p, CountryCode(Str(cc))) == p["name" := Str(renamed)]
  {
  }

  /** Running the rule twice stacks two flags in front of the original name. */
  lemma PrefixTwiceStacksFlags(isIP: Value -> bool, p: Proxy, name: string, first: string, second: string)
    requires isIP(Field(p, "server")) && Field(p, "name") == Str(name)
    ensures var twice := Prefix(true, isIP, Prefix(true, isIP, p, CountryCode(Str(first))), CountryCode(Str(second)));
      Field(twice, "name") == Str(FlagEmoji(second) + " " + FlagEmoji(first) + " " + name)
  {
    var firstName := FlagEmoji(first) + " " + name;
    var once := p["name" := Str(firstName)];
    PrefixApplied(isIP, p, first, firstName);
    assert Field(once, "server") == Field(p, "server");
    assert Field(once, "name") == Str(firstName);
    PrefixApplied(isIP, once, second, FlagEmoji(second) + " " + firstName);
  }

  /** `const { onlyFlagIP = true } = process.argv` destructures an array, which has
      no `onlyFlagIP` property: the default always applies. */
  lemma ArgvFlagAlwaysOn(argv: seq<Value>)
    ensures FlagWithDefaultTrue(Arr(argv), "onlyFlagIP")
  {
    assert !IsIndex("onlyFlagIP") by {
      assert !('0' <= "onlyFlagIP"[0] <= '9');
    }
  }

  /** operator(proxies): the same array comes back, each proxy prefixed by the rule
      exactly once, with `onlyFlagIP` read from `process.argv`. */
  method Operator(argv: seq<Value>, isIP: Value -> bool, proxies: array<Proxy>, answers: nat -> Answer)
    returns (windows: seq<(nat, nat)>)
    modifies proxies
    ensures windows == Windows(proxies.Length)
    ensures forall k :: 0 <= k < proxies.Length ==> proxies[k] == Prefix(true, isIP, old(proxies[k]), answers(k))
  {
    var onlyFlagIP := FlagWithDefaultTrue(Arr(argv), "onlyFlagIP");
    ArgvFlagAlwaysOn(argv);
    windows := RunInBatches(proxies, (p, a) => Prefix(onlyFlagIP, isIP, p, a), answers);
  }
}
