/** The lookup side of entrances.js: `lodash_get` (a dotted/bracketed path walk),
    `parseAPIResponse`, the retrying `http` helper, and `requestAPI`, which picks
    the local database or the remote API. The transport, the databases, the URL
    template and JSON.parse are parameters: the model decides nothing for them. */
module EntranceLookup {
  import opened JsValue

  // ---------------------------------------------------------------- lodash_get

  predicate IsDigit(c: char) { '0' <= c <= '9' }

  /** Number of leading decimal digits. */
  function DigitRun(s: string): (k: nat)
    ensures k <= |s|
    ensures forall i :: 0 <= i < k ==> IsDigit(s[i])
    ensures k < |s| ==> !IsDigit(s[k])
  {
    if s != [] && IsDigit(s[0]) then 1 + DigitRun(s[1..]) else 0
  }

  /** Whether `s` starts with a match of `/\[(\d+)\]/`: '[', one or more digits, ']'. */
  predicate BracketIndexAt(s: string) {
    |s| >= 1 && s[0] == '[' && DigitRun(s[1..]) >= 1
    && 1 + DigitRun(s[1..]) < |s| && s[1 + DigitRun(s[1..])] == ']'
  }

  /** `path.replace(/\[(\d+)\]/g, '.$1')`: leftmost match first, scanning resumes
      after each replaced match. */
  function NormalizePath(s: string): string
    decreases |s|
  {
    if s == [] then []
    else if BracketIndexAt(s) then
      var k := DigitRun(s[1..]);
      "." + s[1..1 + k] + NormalizePath(s[k + 2..])
    else [s[0]] + NormalizePath(s[1..])
  }

  /** `s.split('.')`: the pieces between dots; "" splits to [""]. */
  function Split(s: string): (r: seq<string>)
    ensures |r| >= 1
  {
    if s == [] then [""]
    else
      var rest := Split(s[1..]);
      if s[0] == '.' then [""] + rest else [[s[0]] + rest[0]] + rest[1..]
  }

  /** `pieces.join('.')`, the inverse of Split. */
  function Join(pieces: seq<string>): string
    requires |pieces| >= 1
  {
    if |pieces| == 1 then pieces[0] else pieces[0] + "." + Join(pieces[1..])
  }

  /** The path pieces lodash_get walks. */
  function PathPieces(path: string): seq<string> {
    Split(NormalizePath(path))
  }

  /** The value reached after the first n steps of the walk, ignoring the early exit. */
  function Reach(v: Value, pieces: seq<string>, n: nat): Value
    requires n <= |pieces|
  {
    if n == 0 then v else Prop(Reach(v, pieces, n - 1), pieces[n - 1])
  }

  /** The walk of lodash_get: step through each piece with `Object(result)[p]`,
      giving up with the default as soon as a step yields `undefined`. */
  function Walk(v: Value, pieces: seq<string>, defaultValue: Value): Value
    decreases pieces
  {
    if pieces == [] then v
    else
      var next := Prop(v, pieces[0]);
      if next.Undefined? then defaultValue else Walk(next, pieces[1..], defaultValue)
  }

  function LodashGet(source: Value, path: string, defaultValue: Value): Value {
    Walk(source, PathPieces(path), defaultValue)
  }

  /** lodash_get as the source runs it: a loop that reassigns `result` and returns
      early on `undefined`. */
  method GetByPath(source: Value, path: string, defaultValue: Value) returns (result: Value)
    ensures result == LodashGet(source, path, defaultValue)
  {
    var pieces := Split(NormalizePath(path));
    result := source;
    for i := 0 to |pieces|
      invariant Walk(result, pieces[i..], defaultValue) == Walk(source, pieces, defaultValue)
    {
      assert pieces[i..][1..] == pieces[i + 1..];
      result := Prop(result, pieces[i]);
      if result.Undefined? {
        return defaultValue;
      }
    }
    assert pieces[|pieces|..] == [];
  }

  lemma {:induction false} ReachShift(v: Value, pieces: seq<string>, n: nat)
    requires 1 <= n <= |pieces|
    ensures Reach(v, pieces, n) == Reach(Prop(v, pieces[0]), pieces[1..], n - 1)
  {
    if n > 1 {
      ReachShift(v, pieces, n - 1);
    }
  }

  /** When every step yields a value, the walk returns the value at the end of the path. */
  lemma {:induction false} WalkReachesEnd(v: Value, pieces: seq<string>, defaultValue: Value)
    requires forall n :: 1 <= n <= |pieces| ==> !Reach(v, pieces, n).Undefined?
    ensures Walk(v, pieces, defaultValue) == Reach(v, pieces, |pieces|)
    decreases pieces
  {
    if pieces != [] {
      var next := Prop(v, pieces[0]);
      assert Reach(v, pieces, 1) == next;
      forall n | 1 <= n <= |pieces[1..]| ensures !Reach(next, pieces[1..], n).Undefined? {
        ReachShift(v, pieces, n + 1);
      }
      WalkReachesEnd(next, pieces[1..], defaultValue);
      ReachShift(v, pieces, |pieces|);
    }
  }

  /** As soon as some step yields `undefined`, the walk returns the default. */
  lemma {:induction false} WalkStopsAtUndefined(v: Value, pieces: seq<string>, defaultValue: Value, n: nat)
    requires 1 <= n <= |pieces|
    requires Reach(v, pieces, n).Undefined?
    ensures Walk(v, pieces, defaultValue) == defaultValue
    decreases pieces
  {
    var next := Prop(v, pieces[0]);
    assert Reach(v, pieces, 1) == next;
    if !next.Undefined? {
      ReachShift(v, pieces, n);
      WalkStopsAtUndefined(next, pieces[1..], defaultValue, n - 1);
    }
  }

  lemma {:induction false} DigitRunOfIndex(digits: string, rest: string)
    requires forall i :: 0 <= i < |digits| ==> IsDigit(digits[i])
    ensures DigitRun(digits + "]" + rest) == |digits|
  {
    if digits != [] {
      assert (digits + "]" + rest)[1..] == digits[1..] + "]" + rest;
      DigitRunOfIndex(digits[1..], rest);
    }
  }

  /** `[n]` becomes `.n`. */
  lemma NormalizeBracket(digits: string, rest: string)
    requires |digits| >= 1 && forall i :: 0 <= i < |digits| ==> IsDigit(digits[i])
    ensures NormalizePath("[" + digits + "]" + rest) == "." + digits + NormalizePath(rest)
  {
    var s := "[" + digits + "]" + rest;
    assert s[1..] == digits + "]" + rest;
    DigitRunOfIndex(digits, rest);
    assert BracketIndexAt(s);
    assert s[1..1 + |digits|] == digits;
    assert s[|digits| + 2..] == rest;
  }

  /** A path without brackets is left as it is. */
  lemma {:induction false} NormalizeWithoutBrackets(s: string)
    requires forall i :: 0 <= i < |s| ==> s[i] != '['
    ensures NormalizePath(s) == s
  {
    if s != [] {
      NormalizeWithoutBrackets(s[1..]);
    }
  }

  /** Joining the pieces of a split with '.' gives back the string. */
  lemma {:induction false} JoinSplit(s: string)
    ensures Join(Split(s)) == s
  {
    if s != [] {
      var rest := Split(s[1..]);
      JoinSplit(s[1..]);
      if s[0] == '.' {
        assert Split(s) == [""] + rest;
        assert Split(s)[1..] == rest;
      } else {
        var r := Split(s);
        assert r == [[s[0]] + rest[0]] + rest[1..];
        if |rest| == 1 {
          assert r == [[s[0]] + rest[0]];
        } else {
          assert r[1..] == rest[1..];
          assert Join(rest) == rest[0] + "." + Join(rest[1..]);
          assert Join(r) == ([s[0]] + rest[0]) + "." + Join(rest[1..]);
        }
      }
    }
  }

  /** No piece of a split contains the separator. */
  lemma {:induction false} SplitPiecesHaveNoDot(s: string, j: nat, i: nat)
    requires j < |Split(s)| && i < |Split(s)[j]|
    ensures Split(s)[j][i] != '.'
  {
    if s != [] {
      var rest := Split(s[1..]);
      if s[0] == '.' {
        if j > 0 {
          SplitPiecesHaveNoDot(s[1..], j - 1, i);
        }
      } else if j == 0 {
        if i > 0 {
          SplitPiecesHaveNoDot(s[1..], 0, i - 1);
        }
      } else {
        SplitPiecesHaveNoDot(s[1..], j, i);
      }
    }
  }

  lemma NormalizeIndexExample()
    ensures NormalizePath("[0].b") == ".0.b"
  {
    assert "[" + "0" + "]" + ".b" == "[0].b";
    NormalizeBracket("0", ".b");
    NormalizeWithoutBrackets(".b");
  }

  lemma NormalizeExample()
    ensures NormalizePath("a[0].b") == "a.0.b"
  {
    var path := "a[0].b";
    NormalizeIndexExample();
    assert !BracketIndexAt(path) by {
      assert path[0] != '[';
    }
    assert path[1..] == "[0].b";
    assert NormalizePath(path) == ['a'] + NormalizePath("[0].b");
  }

  lemma SplitExample()
    ensures Split("a.0.b") == ["a", "0", "b"]
  {
    assert Split("b") == ["b"] by { assert "b"[1..] == ""; assert Split("") == [""]; assert ['b'] + "" == "b"; }
    assert Split(".b") == ["", "b"] by { assert ".b"[1..] == "b"; }
    assert Split("0.b") == ["0", "b"] by { assert "0.b"[1..] == ".b"; assert ['0'] + "" == "0"; }
    assert Split(".0.b") == ["", "0", "b"] by { assert ".0.b"[1..] == "0.b"; }
    assert "a.0.b"[1..] == ".0.b";
    assert ['a'] + "" == "a";
  }

  /** `lodash_get(res, "a[0].b")` reads `res.a`, then its element 0, then `.b`. */
  lemma PathPiecesExample()
    ensures PathPieces("a[0].b") == ["a", "0", "b"]
  {
    NormalizeExample();
    SplitExample();
  }

  // ---------------------------------------------------------------- http

  /** One transport attempt: a response object, or a thrown error. */
  datatype Attempt = Responded(response: Value) | Failed(error: Value)

  function Sum(xs: seq<int>): int {
    if xs == [] then 0 else Sum(xs[..|xs| - 1]) + xs[|xs| - 1]
  }

  /** The retrying `http` helper. `transport(k)` is what attempt k (0 is the first)
      yields; `waits` records the delay awaited before each retry instead of
      sleeping. At most `retries` retries are made, the k-th after waiting
      `retryDelay * k`; the first response wins; after the last retry fails, its
      error is rethrown. */
  method Http(retries: int, retryDelay: int, transport: nat -> Attempt) returns (outcome: Attempt, waits: seq<int>)
    ensures |waits| <= if retries > 0 then retries else 0
    ensures forall k :: 0 <= k < |waits| ==> waits[k] == retryDelay * (k + 1)
    ensures forall k :: 0 <= k < |waits| ==> transport(k).Failed?
    ensures outcome == transport(|waits|)
    ensures outcome.Failed? ==> |waits| == if retries > 0 then retries else 0
    ensures 2 * Sum(waits) == retryDelay * |waits| * (|waits| + 1)
  {
    var count := 0;
    waits := [];
    outcome := transport(0);
    while outcome.Failed? && count < retries
      invariant 0 <= count == |waits|
      invariant count <= if retries > 0 then retries else 0
      invariant forall k :: 0 <= k < count ==> waits[k] == retryDelay * (k + 1)
      invariant forall k :: 0 <= k < count ==> transport(k).Failed?
      invariant outcome == transport(count)
      invariant 2 * Sum(waits) == retryDelay * count * (count + 1)
      decreases retries - count
    {
      count := count + 1;
      var delay := retryDelay * count;
      assert (waits + [delay])[..|waits|] == waits;
      waits := waits + [delay];
      outcome := transport(count);
    }
  }

  // ---------------------------------------------------------------- parseAPIResponse

  /** `parseAPIResponse`: the response body as a string, parsed as JSON when that
      succeeds and kept as the literal string otherwise. `parse` stands for
      JSON.parse (None when it throws). */
  function ParseApiResponse(res: Value, parse: string -> Option<Value>): Value {
    var body := ToStr(LodashGet(res, "body", Undefined));
    match parse(body)
    case Some(v) => v
    case None => Str(body)
  }

  /** A string without dots splits into itself alone. */
  lemma {:induction false} SplitWithoutDots(s: string)
    requires forall i :: 0 <= i < |s| ==> s[i] != '.'
    ensures Split(s) == [s]
  {
    if s != [] {
      SplitWithoutDots(s[1..]);
      assert [s[0]] + s[1..] == s;
    }
  }

  /** A path that is a single property name (no '.' and no '[') reads that one
      property, falling back to the default when it is `undefined`. */
  lemma LodashGetOfName(source: Value, key: string, defaultValue: Value)
    requires forall i :: 0 <= i < |key| ==> key[i] != '.' && key[i] != '['
    ensures LodashGet(source, key, defaultValue) ==
      if Prop(source, key).Undefined? then defaultValue else Prop(source, key)
  {
    NormalizeWithoutBrackets(key);
    SplitWithoutDots(key);
    assert PathPieces(key) == [key];
    assert [key][1..] == [];
    assert Walk(Prop(source, key), [], defaultValue) == Prop(source, key);
  }

  /** A response whose `body` is a string hands back the parsed body when it is
      JSON, and the body text itself when it is not. */
  lemma ParseApiResponseOfStringBody(props: map<string, Value>, body: string, parse: string -> Option<Value>)
    requires "body" in props && props["body"] == Str(body)
    ensures parse(body).Some? ==> ParseApiResponse(Obj(props), parse) == parse(body).value
    ensures parse(body).None? ==> ParseApiResponse(Obj(props), parse) == Str(body)
  {
    LodashGetOfName(Obj(props), "body", Undefined);
  }

  /** A response without a `body` (or with `body: undefined`) is read as the
      string "undefined", which is not JSON, so that string is the result. */
  lemma ParseApiResponseWithoutBody(res: Value, parse: string -> Option<Value>)
    requires Prop(res, "body").Undefined?
    requires parse("undefined").None?
    ensures ParseApiResponse(res, parse) == Str("undefined")
  {
    LodashGetOfName(res, "body", Undefined);
  }

  // ---------------------------------------------------------------- requestAPI

  /** What `requestAPI(proxy)` hands back to the per-node check. */
  datatype Lookup = Returned(api: Value) | Threw

  /** `x || ''`. */
  function OrEmpty(v: Value): (r: Value)
    ensures Truthy(v) ==> r == v
    ensures !Truthy(v) ==> r == Str("")
  {
    if Truthy(v) then v else Str("")
  }

  /** The record of the local (database) lookup: countryCode and aso, '' when unknown. */
  function LocalRecord(country: Value, aso: Value): Value {
    Obj(map["countryCode" := OrEmpty(country), "aso" := OrEmpty(aso)])
  }

  /** The collaborators requestAPI consults. `geoip`, `ipaso` and `formatUrl`
      return None when they throw. */
  datatype LookupEnv = LookupEnv(
    geoip: Value -> Option<Value>,
    ipaso: Value -> Option<Value>,
    formatUrl: Proxy -> Option<string>,
    parse: string -> Option<Value>,
    retries: int,
    retryDelay: int)

  /** requestAPI: the local database in `internal` mode, otherwise the remote API
      through the retrying `http` and parseAPIResponse. Any throw becomes Threw.
      `transport(url, k)` is the outcome of attempt k of a request to `url` (the
      HTTP method and headers are folded into the transport); every
      attempt goes to the URL the template formatted for this node. */
  method RequestApi(internal: bool, env: LookupEnv, proxy: Proxy, transport: (string, nat) -> Attempt)
    returns (lookup: Lookup, waits: seq<int>)
    ensures internal ==> waits == []
    ensures internal ==> var server := Field(proxy, "server");
      lookup == if env.geoip(server).Some? && env.ipaso(server).Some?
                then Returned(LocalRecord(env.geoip(server).value, env.ipaso(server).value))
                else Threw
    ensures !internal && env.formatUrl(proxy).None? ==> lookup == Threw && waits == []
    ensures !internal && env.formatUrl(proxy).Some? ==>
      && |waits| <= (if env.retries > 0 then env.retries else 0)
      && (forall k :: 0 <= k < |waits| ==> transport(env.formatUrl(proxy).value, k).Failed?)
      && lookup == match transport(env.formatUrl(proxy).value, |waits|)
                   case Responded(res) => Returned(ParseApiResponse(res, env.parse))
                   case Failed(_) => Threw
    ensures !internal && env.formatUrl(proxy).Some? ==>
      && (lookup.Threw? ==> |waits| == (if env.retries > 0 then env.retries else 0))
      && (forall k :: 0 <= k < |waits| ==> waits[k] == env.retryDelay * (k + 1))
  {
    waits := [];
    if internal {
      var server := Field(proxy, "server");
      var country := env.geoip(server);
      var aso := env.ipaso(server);
      if country.None? || aso.None? {
        return Threw, waits;
      }
      lookup := Returned(LocalRecord(country.value, aso.value));
    } else {
      var url := env.formatUrl(proxy);
      if url.None? {
        return Threw, waits;
      }
      var attempt := (k: nat) => transport(url.value, k);
      var outcome;
      outcome, waits := Http(env.retries, env.retryDelay, attempt);
      assert forall k :: 0 <= k < |waits| ==> attempt(k) == transport(url.value, k);
      match outcome
      case Responded(res) => lookup := Returned(ParseApiResponse(res, env.parse));
      case Failed(_) => lookup := Threw;
    }
  }
}
