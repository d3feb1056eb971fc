/** What modified_sub-storenode.js and name.js share around their per-proxy
    rule: the loop that walks the proxy list in windows of ten (each window is
    awaited with Promise.all and followed by a one-second sleep, which the model
    replaces by visiting the window's proxies in order), and the outcome of a
    country-code query. */
module FlagBatches {
  import opened JsValue

  /** BATCH_SIZE. */
  const BatchSize: nat := 10

  /** What `queryIpApi(proxy)` settles to: the country code it resolved with
      (any value), or a rejection. */
  datatype Answer = CountryCode(code: Value) | QueryFailed

  function Min(a: nat, b: nat): nat { if a <= b then a else b }

  /** The windows `[i, min(i + 10, n))` for i = start, start + 10, ... below n. */
  function WindowsFrom(start: nat, n: nat): (ws: seq<(nat, nat)>)
    ensures start < n ==> |ws| == (n - start + BatchSize - 1) / BatchSize
    ensures start >= n ==> ws == []
    ensures forall j :: 0 <= j < |ws| ==> ws[j] == (start + BatchSize * j, Min(start + BatchSize * j + BatchSize, n))
    decreases n - start
  {
    if start >= n then []
    else [(start, Min(start + BatchSize, n))] + WindowsFrom(start + BatchSize, n)
  }

  /** The windows the loop `while (i < n) { ... i += 10 }` visits. */
  function Windows(n: nat): seq<(nat, nat)> {
    WindowsFrom(0, n)
  }

  /** The windows partition 0..n-1: there are ceil(n/10) of them, and index k
      lies in window k / 10 and in no other. */
  lemma WindowsPartition(n: nat, k: nat)
    requires k < n
    ensures |Windows(n)| == (n + BatchSize - 1) / BatchSize
    ensures k / BatchSize < |Windows(n)|
    ensures Windows(n)[k / BatchSize].0 <= k < Windows(n)[k / BatchSize].1
    ensures forall j :: 0 <= j < |Windows(n)| && Windows(n)[j].0 <= k < Windows(n)[j].1 ==> j == k / BatchSize
  {
    var ws := Windows(n);
    forall j | 0 <= j < |ws| && ws[j].0 <= k < ws[j].1
      ensures j == k / BatchSize
    {
      assert BatchSize * j <= k < BatchSize * j + BatchSize;
    }
  }

  /** The batching loop of `operator`: every proxy gets the rule applied exactly
      once, with the answer for its index, window after window. */
  method RunInBatches(proxies: array<Proxy>, rule: (Proxy, Answer) -> Proxy, answers: nat -> Answer)
    returns (windows: seq<(nat, nat)>)
    modifies proxies
    ensures windows == Windows(proxies.Length)
    ensures forall k :: 0 <= k < proxies.Length ==> proxies[k] == rule(old(proxies[k]), answers(k))
  {
    var n := proxies.Length;
    var i := 0;
    windows := [];
    while i < n
      invariant i == BatchSize * |windows|
      invariant i <= n || (n > 0 && i - BatchSize < n)
      invariant forall j :: 0 <= j < |windows| ==> windows[j] == (BatchSize * j, Min(BatchSize * j + BatchSize, n))
      invariant forall k :: 0 <= k < Min(i, n) ==> proxies[k] == rule(old(proxies[k]), answers(k))
      invariant forall k :: Min(i, n) <= k < n ==> proxies[k] == old(proxies[k])
      decreases n - i
    {
      var end := Min(i + BatchSize, n);
      for k := i to end
        invariant forall m :: 0 <= m < k ==> proxies[m] == rule(old(proxies[m]), answers(m))
        invariant forall m :: k <= m < n ==> proxies[m] == old(proxies[m])
      {
        proxies[k] := rule(proxies[k], answers(k));
      }
      windows := windows + [(i, end)];
      i := i + BatchSize;
    }
    assert |windows| == |Windows(n)|;
  }
}
