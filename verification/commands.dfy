/** The pure stages of the commands the key list runs
    (internal/ui/commands.go and its older twin internal/tui/command.go):
    draining the key stream, building the unloaded items, slicing the
    pending items into display batches, fetching a value, and making a key
    safe for a file name; plus the limit-capped key count of
    internal/rv/rv.go. The store is a set of parameters: the key stream as
    a sequence of messages, and the type, TTL and value lookups as
    functions. */
module Commands {
  import opened Base
  import opened Text
  import opened Items
  import opened KeyFilter

  // ------------------------------------------------------------ scanning

  /** One message of the key stream: a key, or an error. */
  datatype KeyMsg = KeyMsg(key: Str, err: Option<Str>)

  predicate NoErrors(ms: seq<KeyMsg>) {
    forall i | 0 <= i < |ms| :: ms[i].err.None?
  }

  /** The keys of the stream, in order. */
  function Keys(ms: seq<KeyMsg>): (ks: seq<Str>)
    ensures |ks| == |ms| && forall i | 0 <= i < |ms| :: ks[i] == ms[i].key
  {
    seq(|ms|, i requires 0 <= i < |ms| => ms[i].key)
  }

  /** What the consumer of the stream ends with. */
  datatype Drained = DrainFailed(err: Str) | Drained(keys: seq<Str>)

  /** The loop that reads the key stream: it stops at the first error and
      returns it, with nothing of what was read before; otherwise it
      returns every key, in order. */
  method Drain(ms: seq<KeyMsg>) returns (r: Drained)
    ensures r.Drained? <==> NoErrors(ms)
    ensures r.Drained? ==> r.keys == Keys(ms)
    ensures r.DrainFailed? ==>
      exists i | 0 <= i < |ms| :: ms[i].err == Some(r.err) && NoErrors(ms[..i])
  {
    var keys: seq<Str> := [];
    var i := 0;
    while i < |ms|
      invariant 0 <= i <= |ms|
      invariant NoErrors(ms[..i])
      invariant |keys| == i && forall j | 0 <= j < i :: keys[j] == ms[j].key
    {
      if ms[i].err.Some? {
        return DrainFailed(ms[i].err.value);
      }
      assert ms[..i + 1] == ms[..i] + [ms[i]];
      keys := keys + [ms[i].key];
      i := i + 1;
    }
    assert ms[..i] == ms;
    return Drained(keys);
  }

  /** The result of a scan: the error, or the items with the number of keys
      read before filtering. */
  datatype ScanOutcome = ScanError(err: Str)
                       | ScanDone(items: seq<Item>, isComplete: bool, totalScanned: nat)

  /** The item `scanStreamCmd` makes for a key: type, value and TTL are
      fetched later, so the type and value are empty and the TTL is -1. */
  function Unloaded(key: Str): (it: Item)
    ensures it.key == key && !it.loaded && !it.err && it.val == [] && it.keyType == [] && it.ttlSeconds == -1
  {
    Item([], key, [], -1, false, false)
  }

  /** `scanStreamCmd` of internal/ui: drain the stream, filter the keys, and
      make one unloaded item per kept key, in the kept order. */
  method ScanStream(ms: seq<KeyMsg>, filter: Str, strict: bool, fuzzy: (Str, seq<Str>) -> seq<Str>)
    returns (r: ScanOutcome)
    ensures r.ScanError? <==> !NoErrors(ms)
    ensures r.ScanDone? ==>
      var kept := ApplyFilter(Keys(ms), filter, strict, fuzzy);
      r.isComplete && r.totalScanned == |ms| && |r.items| == |kept|
      && forall i | 0 <= i < |kept| :: r.items[i] == Unloaded(kept[i])
  {
    var d := Drain(ms);
    if d.DrainFailed? {
      return ScanError(d.err);
    }
    var kept := ApplyFilter(d.keys, filter, strict, fuzzy);
    var items: seq<Item> := [];
    var i := 0;
    while i < |kept|
      invariant 0 <= i <= |kept|
      invariant |items| == i && forall j | 0 <= j < i :: items[j] == Unloaded(kept[j])
    {
      items := items + [Unloaded(kept[i])];
      i := i + 1;
    }
    return ScanDone(items, true, |d.keys|);
  }

  /** A TTL lookup made non-negative: the looked-up seconds when the lookup
      succeeded with a positive TTL, zero otherwise (no expiry, a missing
      key, or an error). */
  function NormalTTL(reply: Option<int>): (t: int)
    ensures t >= 0
    ensures t > 0 <==> reply.Some? && reply.value > 0
    ensures t > 0 ==> t == reply.value
  {
    if reply.Some? && reply.value > 0 then reply.value else 0
  }

  /** The item `scanCmd` of internal/tui makes for a key: its type and TTL
      are looked up during the scan; the value is fetched later. */
  function Typed(key: Str, typeOf: Str -> Str, ttlOf: Str -> Option<int>): (it: Item)
    ensures it.key == key && it.keyType == typeOf(key) && !it.loaded && !it.err && it.val == []
    ensures it.ttlSeconds == NormalTTL(ttlOf(key))
  {
    Item(typeOf(key), key, [], NormalTTL(ttlOf(key)), false, false)
  }

  /** `scanCmd` of internal/tui: the same stream handling and filtering, with
      typed items whose TTL is never -1. */
  method TuiScan(ms: seq<KeyMsg>, filter: Str, strict: bool, fuzzy: (Str, seq<Str>) -> seq<Str>,
                 typeOf: Str -> Str, ttlOf: Str -> Option<int>)
    returns (r: ScanOutcome)
    ensures r.ScanError? <==> !NoErrors(ms)
    ensures r.ScanDone? ==>
      var kept := ApplyFilter(Keys(ms), filter, strict, fuzzy);
      r.isComplete && r.totalScanned == |ms| && |r.items| == |kept|
      && forall i | 0 <= i < |kept| :: r.items[i] == Typed(kept[i], typeOf, ttlOf) && r.items[i].ttlSeconds >= 0
  {
    var d := Drain(ms);
    if d.DrainFailed? {
      return ScanError(d.err);
    }
    var kept := ApplyFilter(d.keys, filter, strict, fuzzy);
    var items: seq<Item> := [];
    var i := 0;
    while i < |kept|
      invariant 0 <= i <= |kept|
      invariant |items| == i && forall j | 0 <= j < i :: items[j] == Typed(kept[j], typeOf, ttlOf)
    {
      items := items + [Typed(kept[i], typeOf, ttlOf)];
      i := i + 1;
    }
    return ScanDone(items, true, |d.keys|);
  }

  // ------------------------------------------------------------ batches

  const BatchSize: nat := 50

  /** A slice of the pending items for the list, and whether it is the
      last. */
  datatype Batch = Batch(items: seq<Item>, isComplete: bool)

  /** `displayBatchCmd`: the next at most fifty pending items from `index`,
      complete when they reach the end; an empty complete batch once the
      index is at or past the end. */
  function DisplayBatch(pending: seq<Item>, index: nat): (b: Batch)
    ensures index >= |pending| ==> b == Batch([], true)
    ensures index < |pending| ==>
      1 <= |b.items| <= BatchSize && index + |b.items| <= |pending|
      && b.items == pending[index..index + |b.items|]
      && (b.isComplete <==> index + |b.items| == |pending|)
      && (!b.isComplete ==> |b.items| == BatchSize)
  {
    if index >= |pending| then Batch([], true)
    else
      var end := Min(index + BatchSize, |pending|);
      Batch(pending[index..end], end >= |pending|)
  }

  // ------------------------------------------------------------ values

  /** What the store answers for a value: its text (verbatim for a string,
      the indented JSON of the reply otherwise), or an error text. */
  datatype Fetched = Fetched(text: Str) | FetchFailed(err: Str)

  /** The message a value load ends with. */
  datatype LoadValueMsg = LoadValueMsg(key: Str, keyType: Str, val: Str, err: Option<Str>, ttlSeconds: int)

  /** The five types whose values are fetched. */
  predicate Supported(t: Str) {
    t == "string" || t == "list" || t == "set" || t == "zset" || t == "hash"
  }

  /** The error of an unsupported type names the type after a fixed
      prefix. */
  function UnsupportedText(t: Str): (r: Str)
    ensures |r| == 18 + |t| && r[18..] == t
  {
    "unsupported type: " + t
  }

  /** The value part of `loadValueCmd`: the error text of an unsupported
      type, or what the fetch answered; an error text is also the value. */
  function FetchValue(key: Str, keyType: Str, fetch: (Str, Str) -> Fetched): (Str, Option<Str>)
  {
    if !Supported(keyType) then (UnsupportedText(keyType), Some(UnsupportedText(keyType)))
    else match fetch(key, keyType)
      case Fetched(text) => (text, None)
      case FetchFailed(e) => (e, Some(e))
  }

  /** `loadValueCmd` of internal/ui: look the type up when it is not known
      and the TTL when it is -1, then fetch the value. The TTL -1 becomes
      the looked-up TTL (zero unless positive) and any other TTL passes
      through; a type outside the five is an error whose text is also the
      value; a fetch error's text is the value; a fetched text is the value
      as it is. */
  function LoadValue(key: Str, keyType: Str, ttlSeconds: int, typeOf: Str -> Str,
                     ttlOf: Str -> Option<int>, fetch: (Str, Str) -> Fetched): (m: LoadValueMsg)
    ensures m.key == key
    ensures ttlSeconds == -1 ==>
      (m.ttlSeconds >= 0
       && (m.ttlSeconds > 0 <==> ttlOf(key).Some? && ttlOf(key).value > 0)
       && (m.ttlSeconds > 0 ==> m.ttlSeconds == ttlOf(key).value))
    ensures ttlSeconds != -1 ==> m.ttlSeconds == ttlSeconds
    ensures m.keyType == (if keyType == [] then typeOf(key) else keyType)
    ensures !Supported(m.keyType) ==> m.err == Some(UnsupportedText(m.keyType)) && m.val == UnsupportedText(m.keyType)
    ensures Supported(m.keyType) && fetch(key, m.keyType).FetchFailed? ==>
      m.err == Some(fetch(key, m.keyType).err) && m.val == fetch(key, m.keyType).err
    ensures Supported(m.keyType) && fetch(key, m.keyType).Fetched? ==>
      m.err.None? && m.val == fetch(key, m.keyType).text
  {
    var t := if keyType == [] then typeOf(key) else keyType;
    var ttl := if ttlSeconds == -1 then NormalTTL(ttlOf(key)) else ttlSeconds;
    var (v, e) := FetchValue(key, t, fetch);
    LoadValueMsg(key, t, v, e, ttl)
  }

  /** `loadValueCmd` of internal/tui: the type and TTL known from the scan
      are passed through; the value is fetched as above. */
  function TuiLoadValue(key: Str, keyType: Str, ttlSeconds: int, fetch: (Str, Str) -> Fetched): (m: LoadValueMsg)
    ensures m.key == key && m.keyType == keyType && m.ttlSeconds == ttlSeconds
    ensures !Supported(keyType) ==> m.err == Some(UnsupportedText(keyType)) && m.val == UnsupportedText(keyType)
    ensures Supported(keyType) ==> (m.err.None? <==> fetch(key, keyType).Fetched?)
  {
    var (v, e) := FetchValue(key, keyType, fetch);
    LoadValueMsg(key, keyType, v, e, ttlSeconds)
  }

  /** The two generations agree once the type and TTL are known. */
  lemma LoadValueAgrees(key: Str, keyType: Str, ttlSeconds: int, typeOf: Str -> Str,
                        ttlOf: Str -> Option<int>, fetch: (Str, Str) -> Fetched)
    requires keyType != [] && ttlSeconds != -1
    ensures LoadValue(key, keyType, ttlSeconds, typeOf, ttlOf, fetch) == TuiLoadValue(key, keyType, ttlSeconds, fetch)
  {
  }

  // ------------------------------------------------------------ file names

  /** The bytes a file name must not hold. */
  predicate Forbidden(c: char) {
    c == '/' || c == '\\' || c == ':' || c == '*' || c == '?' || c == '"' || c == '<' || c == '>' || c == '|'
  }

  function SafeByte(c: char): char { if Forbidden(c) then '_' else c }

  /** `sanitizeFilename`: every forbidden byte replaced by an underscore,
      one for one, and the result cut to its first fifty bytes. */
  method SanitizeFilename(s: Str) returns (r: Str)
    ensures |r| == Min(|s|, 50)
    ensures forall i | 0 <= i < |r| :: r[i] == (if Forbidden(s[i]) then '_' else s[i])
    ensures forall i | 0 <= i < |r| :: !Forbidden(r[i])
    ensures |s| <= 50 ==> |r| == |s|
  {
    var replaced: Str := [];
    var i := 0;
    while i < |s|
      invariant 0 <= i <= |s|
      invariant |replaced| == i && forall j | 0 <= j < i :: replaced[j] == SafeByte(s[j])
    {
      replaced := replaced + [SafeByte(s[i])];
      i := i + 1;
    }
    r := if |replaced| > 50 then replaced[..50] else replaced;
  }

  // ------------------------------------------------------------ counting

  /** The count at which a limited count stops: one past the limit, and at
      least one key. */
  function Cap(maxScanCount: int): nat {
    if maxScanCount >= 0 then maxScanCount + 1 else 1
  }

  /** `CountKeys` outside cluster mode, over an iterator that yields `n`
      keys and then ends, with an error when `fails`. Each key adds one;
      a limited count stops once it exceeds `maxScanCount`, before the
      iterator could report an error; after a full pass an error gives 0. */
  method CountKeys(n: nat, fails: bool, unlimited: bool, maxScanCount: int) returns (count: int, failed: bool)
    ensures unlimited ==> failed == fails && count == (if fails then 0 else n)
    ensures !unlimited && n >= Cap(maxScanCount) ==> !failed && count == Cap(maxScanCount)
    ensures !unlimited && n < Cap(maxScanCount) ==> failed == fails && count == (if fails then 0 else n)
  {
    count := 0;
    var i := 0;
    var stopped := false;
    while i < n && !stopped
      invariant 0 <= i <= n && count == i
      invariant stopped ==> !unlimited && i == Cap(maxScanCount)
      invariant !stopped && !unlimited ==> i < Cap(maxScanCount)
    {
      count := count + 1;
      i := i + 1;
      if !unlimited && count > maxScanCount {
        stopped := true;
      }
    }
    if !stopped && fails {
      return 0, true;
    }
    return count, false;
  }
}
