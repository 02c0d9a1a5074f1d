/** The bounded terminal output buffer, trimmed incrementally on character boundaries; the captured
    stderr tail of an agent process is trimmed by the same loop. */
module OutputBuffer {
  import opened Wrappers
  import opened Utf8

  /** The first character boundary at or after `i`. */
  function NextBoundary(b: seq<Byte>, i: nat): (j: nat)
    requires i <= |b|
    ensures i <= j <= |b|
    decreases |b| - i
  {
    if i < |b| && !IsBoundary(b, i) then NextBoundary(b, i + 1) else i
  }

  /** What one trim leaves of a text that may be over the limit. */
  function Trimmed(text: seq<Byte>, limit: nat): seq<Byte> {
    if |text| <= limit then text else text[NextBoundary(text, |text| - limit)..]
  }

  datatype Buffer = Buffer(text: seq<Byte>, truncated: bool)

  const EMPTY := Buffer([], false)

  function Appended(b: Buffer, limit: Option<U64>, fragment: string): Buffer {
    var text := b.text + Encode(fragment);
    match limit
    case None => Buffer(text, b.truncated)
    case Some(l) => Buffer(Trimmed(text, l), b.truncated || |text| > l)
  }

  class TerminalOutputBuffer {
    var text: seq<Byte>
    var truncated: bool
    const outputByteLimit: Option<U64>

    function View(): Buffer
      reads this
    {
      Buffer(text, truncated)
    }

    constructor (limit: Option<U64>)
      ensures View() == EMPTY && outputByteLimit == limit
    {
      text, truncated, outputByteLimit := [], false, limit;
    }

    method Append(fragment: string)
      modifies this
      ensures View() == Appended(old(View()), outputByteLimit, fragment)
    {
      text := text + Encode(fragment);
      if outputByteLimit.None? {
        return;
      }
      var limit := outputByteLimit.value;
      if |text| <= limit {
        return;
      }
      var trimIndex := |text| - limit;
      while trimIndex < |text| && !IsBoundary(text, trimIndex)
        invariant trimIndex <= |text|
        invariant NextBoundary(text, |text| - limit) == NextBoundary(text, trimIndex)
      {
        trimIndex := trimIndex + 1;
      }
      if trimIndex >= |text| {
        text := [];
      } else {
        text := text[trimIndex..];
      }
      truncated := true;
    }
  }

  // ----- the whole-history specification

  /** Position `start` begins the longest suffix of `h` that starts on a character boundary and has at
      most `limit` bytes. */
  predicate BeginsLongestTail(h: seq<Byte>, limit: nat, start: nat) {
    && start <= |h| && IsBoundary(h, start) && |h| - start <= limit
    && forall s: nat :: s <= |h| && IsBoundary(h, s) && |h| - s <= limit ==> start <= s
  }

  lemma {:induction false} NextBoundaryIsFirst(b: seq<Byte>, i: nat)
    requires i <= |b|
    ensures
      var j := NextBoundary(b, i);
      && i <= j <= |b| && IsBoundary(b, j)
      && forall s: nat :: i <= s && IsBoundary(b, s) && s <= |b| ==> j <= s
    decreases |b| - i
  {
    if i < |b| && !IsBoundary(b, i) {
      NextBoundaryIsFirst(b, i + 1);
    }
  }

  /** Boundaries survive appending a fragment and dropping a prefix that ends on one. */
  lemma BoundariesOf(h: seq<Byte>, f: seq<Byte>, start: nat, s: nat)
    requires start <= s <= |h| + |f| && start <= |h| && IsBoundary(h, start)
    requires f != [] ==> !IsContinuation(f[0])
    ensures IsBoundary(h + f, s) <==> IsBoundary(h[start..] + f, s - start)
    ensures s <= |h| ==> (IsBoundary(h + f, s) <==> IsBoundary(h, s))
  {
    var t := h[start..] + f;
    assert s < |h + f| ==> (h + f)[s] == t[s - start];
  }

  lemma PrefixBoundary(h: seq<Byte>, f: seq<Byte>, s: nat)
    requires s < |h| && IsBoundary(h + f, s)
    ensures IsBoundary(h, s)
  {}

  /** One append keeps the text the longest tail of the whole history. */
  lemma AppendKeepsTail(h: seq<Byte>, f: seq<Byte>, limit: nat, start: nat)
    requires BeginsLongestTail(h, limit, start) && (f != [] ==> !IsContinuation(f[0]))
    ensures
      var t := h[start..] + f;
      var j := if |t| <= limit then 0 else NextBoundary(t, |t| - limit);
      && j <= |t| && BeginsLongestTail(h + f, limit, start + j) && Trimmed(t, limit) == (h + f)[start + j..]
  {
    hide IsBoundary, NextBoundary;
    var t := h[start..] + f;
    var j := if |t| <= limit then 0 else NextBoundary(t, |t| - limit);
    if |t| > limit {
      NextBoundaryIsFirst(t, |t| - limit);
    }
    assert t[j..] == (h + f)[start + j..];
    BoundariesOf(h, f, start, start + j);
    forall s: nat | s <= |h + f| && IsBoundary(h + f, s) && |h + f| - s <= limit ensures start + j <= s {
      if s < start {
        PrefixBoundary(h, f, s);
      } else {
        BoundariesOf(h, f, start, s);
      }
    }
  }

  function Concat(fragments: seq<string>): string {
    if fragments == [] then "" else Concat(fragments[..|fragments| - 1]) + fragments[|fragments| - 1]
  }

  function AppendAll(limit: Option<U64>, fragments: seq<string>): Buffer {
    if fragments == [] then EMPTY
    else Appended(AppendAll(limit, fragments[..|fragments| - 1]), limit, fragments[|fragments| - 1])
  }

  predicate Refines(b: Buffer, h: seq<Byte>, limit: nat, start: nat) {
    BeginsLongestTail(h, limit, start) && b.text == h[start..] && (b.truncated <==> |h| > limit)
  }

  lemma AppendRefines(b: Buffer, h: seq<Byte>, limit: U64, start: nat, fragment: string) returns (next: nat)
    requires Refines(b, h, limit, start)
    ensures Refines(Appended(b, Some(limit), fragment), h + Encode(fragment), limit, next)
  {
    hide EncodeChar;
    var f := Encode(fragment);
    EncodeStartsOnBoundary(fragment);
    AppendKeepsTail(h, f, limit, start);
    var t := h[start..] + f;
    next := start + if |t| <= limit then 0 else NextBoundary(t, |t| - limit);
    assert IsBoundary(h, 0);
  }

  lemma {:induction false} AppendsRefine(limit: U64, fragments: seq<string>) returns (start: nat)
    ensures Refines(AppendAll(Some(limit), fragments), Encode(Concat(fragments)), limit, start)
  {
    hide EncodeChar, Appended;
    if fragments == [] {
      return 0;
    }
    hide Refines;
    var before, last := fragments[..|fragments| - 1], fragments[|fragments| - 1];
    var s := AppendsRefine(limit, before);
    EncodeAppend(Concat(before), last);
    start := AppendRefines(AppendAll(Some(limit), before), Encode(Concat(before)), limit, s, last);
  }

  /** The incremental buffer refines its specification. After any appends the text is the longest
      suffix of everything ever appended that starts on a character boundary and fits the limit; it is
      the encoding of a suffix of the appended characters; `truncated` holds exactly when something did
      not fit; and at most three bytes are wasted. */
  lemma {:induction false} BufferIsLongestTail(limit: U64, fragments: seq<string>) returns (start: nat, k: nat)
    ensures
      var all, b := Concat(fragments), AppendAll(Some(limit), fragments);
      && BeginsLongestTail(Encode(all), limit, start) && b.text == Encode(all)[start..]
      && k <= |all| && b.text == Encode(all[k..]) && Decode(b.text) == Some(all[k..])
      && (b.truncated <==> |Encode(all)| > limit)
      && (b.truncated ==> |b.text| >= limit - 3)
  {
    start := AppendsRefine(limit, fragments);
    var all := Concat(fragments);
    var h := Encode(all);
    k := BoundarySplits(all, start);
    DecodeEncode(all[k..]);
    if |h| > limit {
      var j := BoundaryNear(all, |h| - limit);
      assert start <= j;
    }
  }

  /** Without a limit nothing is ever lost. */
  lemma {:induction false} UnlimitedKeepsEverything(fragments: seq<string>)
    ensures AppendAll(None, fragments) == Buffer(Encode(Concat(fragments)), false)
  {
    if fragments != [] {
      UnlimitedKeepsEverything(fragments[..|fragments| - 1]);
      EncodeAppend(Concat(fragments[..|fragments| - 1]), fragments[|fragments| - 1]);
    }
  }
}
