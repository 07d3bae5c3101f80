/**
 * The Iconify client as an object: the collection index is resolved through
 * the cache store on first use and then kept in the `sets` field, so later
 * calls neither consult the store nor fetch `/collections` again. What the
 * cache store and the HTTP layer answer is passed in as a value.
 */
module IconifyClient {
  import opened Wrappers
  import opened IconifyRules

  /**
   * What the cache store's get-or-compute call under the key
   * "ux-iconify-sets" comes back with: an index it already held, an index
   * it obtained by running the compute callback (which issues
   * `GET /collections`), or the exception that callback threw, which the
   * store passes on without storing anything.
   */
  datatype Lookup = Stored(index: Index) | Computed(index: Index) | ComputeFailed

  /**
   * The memo as a value: the memoised index (`None` while unset), how many
   * times the cache store was consulted, and how many `/collections`
   * requests those consultations caused.
   */
  datatype Memo = Memo(sets: Option<Index>, lookups: nat, fetches: nat)

  /** Every fetch happens inside a consultation, and a set memo was consulted for. */
  ghost predicate Consistent(m: Memo)
  {
    m.fetches <= m.lookups && (m.sets.Some? ==> m.lookups >= 1)
  }

  /** One call of `sets()`: `$this->sets ??= $this->cache->get(...)`. */
  function ResolveSets(m: Memo, answer: Lookup): (step: (Memo, Result<Index>))
  {
    if m.sets.Some? then (m, Ok(m.sets.value))
    else match answer
      case Stored(index) => (Memo(Some(index), m.lookups + 1, m.fetches), Ok(index))
      case Computed(index) => (Memo(Some(index), m.lookups + 1, m.fetches + 1), Ok(index))
      case ComputeFailed => (Memo(None, m.lookups + 1, m.fetches + 1), Err(CollectionsUnavailable))
  }

  /** A step keeps the memo consistent, and a set memo never changes again. */
  lemma ResolveSetsKeeps(m: Memo, answer: Lookup)
    requires Consistent(m)
    ensures Consistent(ResolveSets(m, answer).0)
    ensures m.sets.Some? ==> ResolveSets(m, answer) == (m, Ok(m.sets.value))
    ensures ResolveSets(m, answer).1.Ok? <==> ResolveSets(m, answer).0.sets.Some?
    ensures ResolveSets(m, answer).1.Ok? ==> ResolveSets(m, answer).0.sets == Some(ResolveSets(m, answer).1.value)
  {
  }

  /** The memo after one `sets()` call per public operation, in order. */
  function Replay(m: Memo, answers: seq<Lookup>): (final: Memo)
    decreases |answers|
  {
    if answers == [] then m else Replay(ResolveSets(m, answers[0]).0, answers[1..])
  }

  /** After the first successful resolution nothing changes: no lookup, no fetch, same index. */
  lemma {:induction false} ReplayAfterResolved(m: Memo, answers: seq<Lookup>)
    requires m.sets.Some?
    ensures Replay(m, answers) == m
    decreases |answers|
  {
    if answers != [] {
      ReplayAfterResolved(m, answers[1..]);
    }
  }

  /**
   * A failed resolution is retried on the next call; the first answer that
   * is not a failure is the index kept for good, and the store is consulted
   * exactly once per call up to and including that one.
   */
  lemma {:induction false} ReplayFirstResolution(m: Memo, answers: seq<Lookup>, k: nat)
    requires m.sets.None?
    requires k < |answers| && !answers[k].ComputeFailed?
    requires forall j :: 0 <= j < k ==> answers[j].ComputeFailed?
    ensures Replay(m, answers)
            == Memo(Some(answers[k].index), m.lookups + k + 1,
                    m.fetches + k + (if answers[k].Computed? then 1 else 0))
    decreases k
  {
    var next := ResolveSets(m, answers[0]).0;
    if k == 0 {
      ReplayAfterResolved(next, answers[1..]);
    } else {
      assert answers[0].ComputeFailed?;
      forall j | 0 <= j < k - 1 ensures answers[1..][j].ComputeFailed? {
        assert answers[1..][j] == answers[j + 1];
      }
      ReplayFirstResolution(next, answers[1..], k - 1);
    }
  }

  /** While every resolution fails the memo stays unset and each call consults the store. */
  lemma {:induction false} ReplayAllFail(m: Memo, answers: seq<Lookup>)
    requires m.sets.None?
    requires forall j :: 0 <= j < |answers| ==> answers[j].ComputeFailed?
    ensures Replay(m, answers) == Memo(None, m.lookups + |answers|, m.fetches + |answers|)
    decreases |answers|
  {
    if answers != [] {
      assert answers[0].ComputeFailed?;
      forall j | 0 <= j < |answers| - 1 ensures answers[1..][j].ComputeFailed? {
        assert answers[1..][j] == answers[j + 1];
      }
      ReplayAllFail(ResolveSets(m, answers[0]).0, answers[1..]);
    }
  }

  /** With a store that never fails, any number of calls fetches `/collections` at most once. */
  lemma FetchedAtMostOnce(answers: seq<Lookup>)
    requires forall j :: 0 <= j < |answers| ==> !answers[j].ComputeFailed?
    ensures Replay(Memo(None, 0, 0), answers).lookups <= 1
    ensures Replay(Memo(None, 0, 0), answers).fetches <= 1
  {
    if answers != [] {
      ReplayFirstResolution(Memo(None, 0, 0), answers, 0);
    }
  }

  /** The client object (`final class Iconify`). */
  class Iconify {
    /** Base URI every request is scoped to. */
    const endpoint: string
    /** The memoised collection index (`$this->sets`), `None` until first resolved. */
    var sets: Option<Index>
    /** Number of times the cache store was consulted. */
    ghost var lookups: nat
    /** Number of `/collections` requests caused by those consultations. */
    ghost var fetches: nat
    /** Icon requests issued by this client, in order, as paths under `endpoint`. */
    ghost var requests: seq<string>

    ghost function State(): Memo
      reads this
    {
      Memo(sets, lookups, fetches)
    }

    ghost predicate Valid()
      reads this
    {
      Consistent(State())
    }

    constructor (endpoint: string := "https://api.iconify.design")
      ensures Valid() && this.endpoint == endpoint
      ensures sets == None && lookups == 0 && fetches == 0 && requests == []
    {
      this.endpoint := endpoint;
      sets := None;
      lookups, fetches := 0, 0;
      requests := [];
    }

    /** The private `sets()`: consult the store only while the memo is unset. */
    method Sets(answer: Lookup) returns (r: Result<Index>)
      requires Valid()
      modifies this
      ensures Valid()
      ensures (State(), r) == ResolveSets(old(State()), answer)
      ensures requests == old(requests)
    {
      ResolveSetsKeeps(State(), answer);
      if sets.Some? {
        return Ok(sets.value);
      }
      lookups := lookups + 1;
      match answer {
        case Stored(index) =>
          sets := Some(index);
          r := Ok(index);
        case Computed(index) =>
          fetches := fetches + 1;
          sets := Some(index);
          r := Ok(index);
        case ComputeFailed =>
          fetches := fetches + 1;
          r := Err(CollectionsUnavailable);
      }
    }

    /** `metadataFor($prefix)`. */
    method MetadataFor(prefix: string, answer: Lookup) returns (r: Result<Meta>)
      requires Valid()
      modifies this
      ensures Valid()
      ensures State() == ResolveSets(old(State()), answer).0
      ensures requests == old(requests)
      ensures match ResolveSets(old(State()), answer).1
              case Err(e) => r == Err(e)
              case Ok(index) => r == IconifyRules.MetadataFor(index, prefix)
    {
      var s := Sets(answer);
      if s.Err? {
        return Err(s.error);
      }
      r := IconifyRules.MetadataFor(s.value, prefix);
    }

    /**
     * `fetchIcon($prefix, $name)`; `reply` is what the metadata request
     * returns if it is issued. Only the first `sets()` call can consult the
     * store: once it succeeds the later ones read the memo.
     */
    method FetchIcon(prefix: string, name: string, answer: Lookup, reply: Transport<JsonBody>)
      returns (r: Result<Icon>)
      requires Valid()
      modifies this
      ensures Valid()
      ensures State() == ResolveSets(old(State()), answer).0
      ensures match ResolveSets(old(State()), answer).1
              case Err(e) => r == Err(e) && requests == old(requests)
              case Ok(index) =>
                && r == IconifyRules.FetchIcon(index, prefix, name, reply)
                && requests == old(requests) + (if prefix in index then [JsonPath(prefix, name)] else [])
    {
      var s := Sets(answer);
      if s.Err? {
        return Err(s.error);
      }
      var index := s.value;
      if prefix in index {
        requests := requests + [JsonPath(prefix, name)];
      }
      r := IconifyRules.FetchIcon(index, prefix, name, reply);
    }

    /** `fetchSvg($prefix, $name)`; `reply` is what the SVG request returns if it is issued. */
    method FetchSvg(prefix: string, name: string, answer: Lookup, reply: Transport<string>)
      returns (r: Result<string>)
      requires Valid()
      modifies this
      ensures Valid()
      ensures State() == ResolveSets(old(State()), answer).0
      ensures match ResolveSets(old(State()), answer).1
              case Err(e) => r == Err(e) && requests == old(requests)
              case Ok(index) =>
                && r == IconifyRules.FetchSvg(index, prefix, name, reply)
                && requests == old(requests) + (if prefix in index then [SvgPath(prefix, name)] else [])
    {
      var s := Sets(answer);
      if s.Err? {
        return Err(s.error);
      }
      var index := s.value;
      if prefix in index {
        requests := requests + [SvgPath(prefix, name)];
      }
      r := IconifyRules.FetchSvg(index, prefix, name, reply);
    }
  }
}
