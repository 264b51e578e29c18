/**
 * The reference store: an append-only registry that hands out `ref://1`, `ref://2`, ... in call
 * order and keeps the value registered under each id.
 */
module RefStore {
  import opened Wrappers
  import opened Types

  /** A reference id; `n` is the value of the store's counter when it was handed out. */
  datatype RefId = RefId(n: nat)

  /** What gets tracked: a validator with its options, a parse callback, or a conditional callback. */
  datatype Payload =
    | RulePayload(validator: nat, options: RuleOptions)
    | ParserPayload(parser: nat)
    | ConditionalPayload(callback: nat)

  /** The id the next `track` on a store holding `entries` hands out. */
  function NextId(entries: seq<Payload>): RefId {
    RefId(|entries| + 1)
  }

  /** The value registered under `id` in a store holding `entries`: `toJSON()[id]`. */
  function Resolve(entries: seq<Payload>, id: RefId): Option<Payload> {
    if 1 <= id.n <= |entries| then Some(entries[id.n - 1]) else None
  }

  predicate IsDigit(c: char) {
    '0' <= c <= '9'
  }

  /** The decimal digits of `n`, most significant first, without leading zeros. */
  function Digits(n: nat): (s: string)
    ensures |s| >= 1 && forall i :: 0 <= i < |s| ==> IsDigit(s[i])
    ensures n >= 10 <==> |s| > 1
    decreases n
  {
    var last := ['0' + (n % 10) as char];
    if n < 10 then last else Digits(n / 10) + last
  }

  /** The number a non-empty string of decimal digits denotes. */
  function DecimalValue(s: string): nat
    requires |s| >= 1 && forall i :: 0 <= i < |s| ==> IsDigit(s[i])
    decreases |s|
  {
    assert IsDigit(s[|s| - 1]);
    var d: nat := s[|s| - 1] as int - '0' as int;
    if |s| == 1 then d else DecimalValue(s[..|s| - 1]) * 10 + d
  }

  /** Reading back the digits of `n` gives `n`. */
  lemma {:induction false} DecimalRoundTrip(n: nat)
    ensures DecimalValue(Digits(n)) == n
    decreases n
  {
    var s := Digits(n);
    if n >= 10 {
      assert s[..|s| - 1] == Digits(n / 10);
      DecimalRoundTrip(n / 10);
    }
  }

  /** The textual form of an id, as the compiled nodes carry it. */
  function RefText(id: RefId): string {
    "ref://" + Digits(id.n)
  }

  /** Distinct ids have distinct texts. */
  lemma RefTextInjective(a: RefId, b: RefId)
    ensures RefText(a) == RefText(b) ==> a == b
  {
    if RefText(a) == RefText(b) {
      assert Digits(a.n) == RefText(a)[6..];
      assert Digits(b.n) == RefText(b)[6..];
      DecimalRoundTrip(a.n);
      DecimalRoundTrip(b.n);
    }
  }

  /** The store. `entries[k]` is the value registered under `ref://(k+1)`. */
  class Refs {
    var entries: seq<Payload>

    constructor ()
      ensures entries == []
      ensures NextId(entries) == RefId(1)
      ensures forall k :: Lookup(RefId(k)) == None
    {
      entries := [];
    }

    /** The value registered under `id`, if any (the store's `toJSON()[id]`). */
    function Lookup(id: RefId): Option<Payload>
      reads this
    {
      Resolve(entries, id)
    }

    /** Registers `p` and returns the next id. */
    method Track(p: Payload) returns (id: RefId)
      modifies this
      ensures id == NextId(old(entries))
      ensures entries == old(entries) + [p]
      ensures Lookup(id) == Some(p)
      ensures forall k :: 1 <= k <= |old(entries)| ==> Lookup(RefId(k)) == old(Lookup(RefId(k)))
    {
      entries := entries + [p];
      id := RefId(|entries|);
    }
  }
}
