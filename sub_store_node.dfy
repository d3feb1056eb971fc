/** modified_sub-storenode.js: prefix each proxy whose server is an IP with the
    flag of the country that `curl ping0.cc/geo/<server>` reports, after passing
    the name through `removeFlag`. The rule takes removeFlag as a parameter: the
    operator uses the function as written (Flags.RemoveFlagAsWritten, which keeps
    every flag and can delete ASCII text), and the lemmas also state what the rule
    does with the corrected Flags.RemoveFlag. */
module SubStoreNode {
  import opened JsValue
  import opened Flags
  import opened FlagBatches

  /** queryIpApi: the curl run fails, writes to stderr, prints something that is not
      JSON, or prints `null`: rejection; otherwise the `country_code` field,
      whatever it holds (`undefined` when absent). `stdout` is the JSON.parse of
      the output, None when it throws. */
  function QueryIpApi(execFailed: bool, stderr: string, stdout: Option<Value>): (a: Answer)
    ensures a.CountryCode? <==> !execFailed && stderr == "" && stdout.Some? && !(stdout.value.Null? || stdout.value.Undefined?)
    ensures a.CountryCode? ==> a.code == Prop(stdout.value, "country_code")
  {
    if execFailed || stderr != "" then QueryFailed
    else match stdout
      case None => QueryFailed
      case Some(data) =>
        match Member(data, "country_code")
        case None => QueryFailed
        case Some(code) => CountryCode(code)
  }

  /** The per-proxy rule. A proxy is skipped when `onlyFlagIP` is on and its server
      is not an IP. Otherwise removeFlag reads the name (which throws unless it
      is a string), the query runs, and getFlagEmoji reads the code (which throws
      unless it is a string); only when all of that succeeds is the name set to
      the flag, a space and the cleaned name. Any throw leaves the proxy as it was. */
  function Rename(removeFlag: string -> string, onlyFlagIP: bool, isIP: Value -> bool, p: Proxy, answer: Answer): Proxy {
    if onlyFlagIP && !isIP(Field(p, "server")) then p
    else if Field(p, "name").Str? && answer.CountryCode? && answer.code.Str? then
      p["name" := Str(FlagEmoji(answer.code.s) + " " + removeFlag(Field(p, "name").s))]
    else p
  }

  /** With `onlyFlagIP` on, a proxy whose server is not an IP is left untouched. */
  lemma RenameSkipsNonIP(removeFlag: string -> string, onlyFlagIP: bool, isIP: Value -> bool, p: Proxy, answer: Answer)
    requires onlyFlagIP && !isIP(Field(p, "server"))
    ensures Rename(removeFlag, onlyFlagIP, isIP, p, answer) == p
  {
  }

  /** The name is the only field that can change; it changes exactly when the
      proxy is not skipped, its name is a string and the query yielded a string
      code, and then it becomes `flag + ' ' + removeFlag(name)`. With removeFlag as
      written, the new name keeps every regional indicator of the old one, behind
      the new flag: an old flag is never removed. */
  lemma RenameEffect(removeFlag: string -> string, onlyFlagIP: bool, isIP: Value -> bool, p: Proxy, answer: Answer)
    ensures var r := Rename(removeFlag, onlyFlagIP, isIP, p, answer);
      && (forall k :: k != "name" ==> (k in r <==> k in p) && Field(r, k) == Field(p, k))
      && (if !(onlyFlagIP && !isIP(Field(p, "server"))) && Field(p, "name").Str? && answer.CountryCode? && answer.code.Str?
          then Field(r, "name") == Str(FlagEmoji(answer.code.s) + " " + removeFlag(Field(p, "name").s))
          else r == p)
    ensures var r := Rename(RemoveFlagAsWritten, onlyFlagIP, isIP, p, answer);
      !(onlyFlagIP && !isIP(Field(p, "server"))) && Field(p, "name").Str? && answer.CountryCode? && answer.code.Str? ==>
        Regionals(Field(r, "name").s) == Regionals(FlagEmoji(answer.code.s) + " ") + Regionals(Field(p, "name").s)
  {
    var r := Rename(RemoveFlagAsWritten, onlyFlagIP, isIP, p, answer);
    if !(onlyFlagIP && !isIP(Field(p, "server"))) && Field(p, "name").Str? && answer.CountryCode? && answer.code.Str? {
      var name := Field(p, "name").s;
      assert Field(r, "name").s == FlagEmoji(answer.code.s) + " " + RemoveFlagAsWritten(name);
      RegionalsAppend(FlagEmoji(answer.code.s) + " ", RemoveFlagAsWritten(name));
      RemoveFlagAsWrittenKeepsRegionals(name);
    }
  }

  /** The rule as written on the name `"CUDA HK"` with code `HK` deletes the text
      `CUDA`: the new name is the HK flag followed by `HK`. */
  lemma RenameAsWrittenDeletesText(isIP: Value -> bool, p: Proxy)
    requires isIP(Field(p, "server")) && Field(p, "name") == Str("CUDA HK")
    ensures Field(Rename(RemoveFlagAsWritten, true, isIP, p, CountryCode(Str("HK"))), "name")
      == Str(FlagEmoji("HK") + " HK")
  {
    var renamed := FlagEmoji("HK") + " " + RemoveFlagAsWritten("CUDA HK");
    RenameNamed(RemoveFlagAsWritten, isIP, p, "CUDA HK", "HK", renamed);
    RemoveFlagAsWrittenDeletesText();
  }

  /** The rule on a proxy that is not skipped and has a string name, with the
      new name given as `renamed`. */
  lemma RenameNamed(removeFlag: string -> string, isIP: Value -> bool, p: Proxy, name: string, cc: string, renamed: string)
    requires isIP(Field(p, "server")) && Field(p, "name") == Str(name)
    requires renamed == FlagEmoji(cc) + " " + removeFlag(name)
    ensures Rename(removeFlag, true, isIP, p, CountryCode(Str(cc))) == p["name" := Str(renamed)]
  {
    assert Field(p, "name").s == name;
  }

  /** With the corrected removeFlag, running the rule twice does not stack flags:
      the second run removes the flag the first one added, so only the latest
      country's flag remains. */
  lemma RenameTwiceKeepsOneFlag(isIP: Value -> bool, p: Proxy, name: string, first: string, second: string)
    requires isIP(Field(p, "server")) && Field(p, "name") == Str(name)
    requires |first| == 2 && forall k :: 0 <= k < 2 ==> 'A' <= first[k] <= 'Z' || 'a' <= first[k] <= 'z'
    ensures var once := Rename(RemoveFlag, true, isIP, p, CountryCode(Str(first)));
      Rename(RemoveFlag, true, isIP, once, CountryCode(Str(second))) == Rename(RemoveFlag, true, isIP, p, CountryCode(Str(second)))
  {
    var cleaned := RemoveFlag(name);
    var firstName := FlagEmoji(first) + " " + cleaned;
    var secondName := FlagEmoji(second) + " " + cleaned;
    var once := p["name" := Str(firstName)];
    RenameNamed(RemoveFlag, isIP, p, name, first, firstName);
    RenameNamed(RemoveFlag, isIP, p, name, second, secondName);
    assert Field(once, "server") == Field(p, "server");
    RemoveFlagOfRenamed(first, name);
    RenameNamed(RemoveFlag, isIP, once, firstName, second, secondName);
    assert once["name" := Str(secondName)] == p["name" := Str(secondName)];
  }

  /** With removeFlag as written, running the rule twice stacks flags: the second
      run keeps the first flag, so the name carries the second flag, then the
      first, then the regional indicators of the original name. */
  lemma RenameTwiceAsWrittenStacksFlags(isIP: Value -> bool, p: Proxy, name: string, first: string, second: string)
    requires isIP(Field(p, "server")) && Field(p, "name") == Str(name)
    requires |first| == 2 && forall k :: 0 <= k < 2 ==> 'A' <= first[k] <= 'Z' || 'a' <= first[k] <= 'z'
    requires |second| == 2 && forall k :: 0 <= k < 2 ==> 'A' <= second[k] <= 'Z' || 'a' <= second[k] <= 'z'
    ensures var once := Rename(RemoveFlagAsWritten, true, isIP, p, CountryCode(Str(first)));
      var twice := Rename(RemoveFlagAsWritten, true, isIP, once, CountryCode(Str(second)));
      twice["name"].Str? && Regionals(twice["name"].s) == FlagEmoji(second) + FlagEmoji(first) + Regionals(name)
  {
    var firstName := FlagEmoji(first) + " " + RemoveFlagAsWritten(name);
    var once := p["name" := Str(firstName)];
    RenameNamed(RemoveFlagAsWritten, isIP, p, name, first, firstName);
    assert Field(once, "server") == Field(p, "server");
    var secondName := FlagEmoji(second) + " " + RemoveFlagAsWritten(firstName);
    RenameNamed(RemoveFlagAsWritten, isIP, once, firstName, second, secondName);
    RegionalsAfterFlag(second, RemoveFlagAsWritten(firstName));
    RemoveFlagAsWrittenKeepsRegionals(firstName);
    RegionalsAfterFlag(first, RemoveFlagAsWritten(name));
    RemoveFlagAsWrittenKeepsRegionals(name);
  }

  /** operator(proxies): `onlyFlagIP` comes from `$arguments` with default true;
      the same array comes back, each proxy renamed by the rule exactly once. */
  method Operator(arguments: Value, isIP: Value -> bool, proxies: array<Proxy>, answers: nat -> Answer)
    returns (windows: seq<(nat, nat)>)
    modifies proxies
    ensures windows == Windows(proxies.Length)
    ensures forall k :: 0 <= k < proxies.Length ==>
      proxies[k] == Rename(RemoveFlagAsWritten, FlagWithDefaultTrue(arguments, "onlyFlagIP"), isIP, old(proxies[k]), answers(k))
  {
    var onlyFlagIP := FlagWithDefaultTrue(arguments, "onlyFlagIP");
    windows := RunInBatches(proxies, (p, a) => Rename(RemoveFlagAsWritten, onlyFlagIP, isIP, p, a), answers);
  }
}
