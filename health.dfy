/** pkg/health/health.go: a readiness probe that sends a GET request with
    extra query values and accepts only status 200.

    The HTTP client, TLS settings and the round trip are collaborators:
    building the request gives the query values already in the URL (or an
    error), and the round trip gives a status code (or an error).
 */
module Health {
  import opened Domain

  /** url.Values */
  type Query = map<string, seq<string>>

  /** v[key], which is empty for an absent key. */
  function Lookup(q: Query, key: string): seq<string>
  {
    if key in q then q[key] else []
  }

  /** url.Values.Add: append one value to the key's list. */
  function Add(q: Query, key: string, value: string): Query
  {
    q[key := Lookup(q, key) + [value]]
  }

  /** url.Values.Add applied to each of `values` in turn. */
  function AddAll(q: Query, key: string, values: seq<string>): Query
  {
    if values == [] then q else q[key := Lookup(q, key) + values]
  }

  /** The query a request carries: for every key, the URL's own values
      followed by the probe's added values, in the order they were added. */
  function Merge(base: Query, extra: Query): (m: Query)
    ensures base.Keys <= m.Keys <= base.Keys + extra.Keys
  {
    map k | k in base.Keys + extra.Keys && (k in base || extra[k] != []) :: Lookup(base, k) + Lookup(extra, k)
  }

  /** Under every key the request carries the URL's own values first and the
      added values after them, nothing else. */
  lemma MergeSplits(base: Query, extra: Query, k: string)
    ensures k in Merge(base, extra) <==> k in base || Lookup(extra, k) != []
    ensures k in Merge(base, extra) ==> |Merge(base, extra)[k]| == |Lookup(base, k)| + |Lookup(extra, k)|
    ensures k in Merge(base, extra) ==> Merge(base, extra)[k][..|Lookup(base, k)|] == Lookup(base, k)
    ensures k in Merge(base, extra) ==> Merge(base, extra)[k][|Lookup(base, k)|..] == Lookup(extra, k)
  {
  }

  /** `extra` without the keys still `pending`. */
  function Without(extra: Query, pending: set<string>): Query
  {
    map k | k in extra && k !in pending :: extra[k]
  }

  /** The fields of a ReadinessProbe. */
  datatype ProbeState = ProbeState(additionalQueryValues: Query, insecure: bool, url: string)

  function NewProbe(url: string): ProbeState
  {
    ProbeState(map[], false, url)
  }

  /** What QueryAdd leaves in the probe's map. */
  function QueryAdded(q: Query, key: string, value: string): Query
  {
    if key in q then q[key := q[key] + [value]] else q[key := [value]]
  }

  /** The request's query, if one was built, and what Run returns. */
  datatype RunResult = RunResult(sent: Option<Query>, err: Outcome)

  /** Run: `request` is http.NewRequest's outcome, as the query values already
      in the URL; `response` is the round trip's status code or error. */
  function ProbeRun(p: ProbeState, request: Result<Query>, response: Result<int>): (r: RunResult)
    ensures |p.url| == 0 ==> r == RunResult(None, Fail(NoURL))
    ensures r.sent.Some? <==> |p.url| > 0 && request.Ok?
    ensures r.sent.Some? ==> r.sent.value == Merge(request.value, p.additionalQueryValues)
    ensures r.err == Pass <==> |p.url| > 0 && request.Ok? && response == Ok(200)
    ensures response == Ok(200) && r.sent.Some? ==> r.err == Pass
    ensures |p.url| > 0 && request.Err? ==> r.err == Fail(request.error)
    ensures |p.url| > 0 && request.Ok? && response.Err? ==> r.err == Fail(response.error)
    ensures |p.url| > 0 && request.Ok? && response.Ok? && response.value != 200 ==> r.err == Fail(UnexpectedStatus(response.value))
  {
    if |p.url| == 0 then RunResult(None, Fail(NoURL))
    else if request.Err? then RunResult(None, Fail(request.error))
    else
      var sent := Merge(request.value, p.additionalQueryValues);
      match response
      case Err(e) => RunResult(Some(sent), Fail(e))
      case Ok(code) => RunResult(Some(sent), if code != 200 then Fail(UnexpectedStatus(code)) else Pass)
  }

  /** QueryAdd appends under its key and touches no other key. */
  lemma QueryAddedAppends(q: Query, key: string, value: string)
    ensures QueryAdded(q, key, value).Keys == q.Keys + {key}
    ensures QueryAdded(q, key, value)[key] == Lookup(q, key) + [value]
    ensures forall k :: k in q && k != key ==> QueryAdded(q, key, value)[k] == q[k]
  {
  }

  /** The Has/Set branch of QueryAdd does what url.Values.Add alone would do. */
  lemma QueryAddedIsAdd(q: Query, key: string, value: string)
    ensures QueryAdded(q, key, value) == Add(q, key, value)
  {
    if key !in q {
      assert Lookup(q, key) + [value] == [value];
    }
  }

  /** A value added to the probe lands at the end of its key's list in the
      request; the other keys of the request are unchanged. */
  lemma {:induction false} MergeKeepsAddOrder(base: Query, extra: Query, key: string, value: string)
    ensures Merge(base, QueryAdded(extra, key, value))[key] == Lookup(base, key) + Lookup(extra, key) + [value]
    ensures forall k :: k != key ==>
      (k in Merge(base, extra) <==> k in Merge(base, QueryAdded(extra, key, value)))
    ensures forall k :: k != key && k in Merge(base, extra) ==>
      Merge(base, QueryAdded(extra, key, value))[k] == Merge(base, extra)[k]
  {
    var e' := QueryAdded(extra, key, value);
    assert key in e' && e'[key] != [];
    assert Lookup(e', key) == Lookup(extra, key) + [value];
    forall k | k != key
      ensures k in Merge(base, extra) <==> k in Merge(base, e')
      ensures k in Merge(base, extra) ==> Merge(base, e')[k] == Merge(base, extra)[k]
    {
      assert Lookup(e', k) == Lookup(extra, k);
    }
  }

  lemma MergeNothing(base: Query)
    ensures Merge(base, map[]) == base
  {
    var m := Merge(base, map[]);
    assert m.Keys == base.Keys;
    forall k | k in m
      ensures m[k] == base[k]
    {
      assert Lookup(base, k) + [] == base[k];
    }
  }

  lemma {:induction false} AddAllStep(q: Query, key: string, values: seq<string>, j: nat)
    requires j < |values|
    ensures AddAll(q, key, values[..j + 1]) == Add(AddAll(q, key, values[..j]), key, values[j])
  {
    assert values[..j + 1] == values[..j] + [values[j]];
    if j == 0 {
      assert values[..j] == [];
      assert values[..j + 1] == [values[0]];
    } else {
      assert values[..j] != [];
      assert Lookup(AddAll(q, key, values[..j]), key) == Lookup(q, key) + values[..j];
      assert Lookup(q, key) + values[..j] + [values[j]] == Lookup(q, key) + values[..j + 1];
    }
  }

  lemma {:induction false} MergeOneMoreKey(base: Query, extra: Query, pending: set<string>, key: string)
    requires key in pending && key in extra
    ensures Merge(base, Without(extra, pending - {key})) == AddAll(Merge(base, Without(extra, pending)), key, extra[key])
  {
    var e := Without(extra, pending);
    var e' := Without(extra, pending - {key});
    var m := Merge(base, e);
    assert key !in e;
    assert e' == e[key := extra[key]];
    assert Lookup(m, key) == Lookup(base, key);
    var lhs := Merge(base, e');
    var rhs := AddAll(m, key, extra[key]);
    assert lhs.Keys == rhs.Keys;
    forall k | k in lhs
      ensures lhs[k] == rhs[k]
    {
      if k != key {
        assert Lookup(e', k) == Lookup(e, k);
      }
    }
  }

  class ReadinessProbe {
    var additionalQueryValues: Query
    var insecure: bool
    var url: string

    function State(): ProbeState
      reads this
    {
      ProbeState(additionalQueryValues, insecure, url)
    }

    /** NewReadinessProbe(url) */
    constructor (url: string)
      ensures State() == NewProbe(url)
    {
      additionalQueryValues := map[];
      insecure := false;
      this.url := url;
    }

    /** Set on an absent key, Add on a present one; returns the same probe. */
    method QueryAdd(key: string, value: string) returns (rp: ReadinessProbe)
      modifies this`additionalQueryValues
      ensures rp == this
      ensures additionalQueryValues.Keys == old(additionalQueryValues).Keys + {key}
      ensures additionalQueryValues[key] == Lookup(old(additionalQueryValues), key) + [value]
      ensures forall k :: k in old(additionalQueryValues) && k != key ==> additionalQueryValues[k] == old(additionalQueryValues)[k]
      ensures additionalQueryValues == QueryAdded(old(additionalQueryValues), key, value)
    {
      if key in additionalQueryValues {
        additionalQueryValues := additionalQueryValues[key := additionalQueryValues[key] + [value]];
      } else {
        additionalQueryValues := additionalQueryValues[key := [value]];
      }
      rp := this;
    }

    /** Sets only the TLS flag; returns the same probe. */
    method Insecure(insecure: bool) returns (rp: ReadinessProbe)
      modifies this`insecure
      ensures rp == this
      ensures State() == old(State()).(insecure := insecure)
    {
      this.insecure := insecure;
      rp := this;
    }

    /** Run: the empty-URL guard, the merge of the added values into the
        request's query by the two nested loops, and the status check. */
    method Run(request: Result<Query>, response: Result<int>) returns (sent: Option<Query>, err: Outcome)
      ensures RunResult(sent, err) == ProbeRun(State(), request, response)
      ensures |url| == 0 ==> sent == None && err == Fail(NoURL)
      ensures sent.Some? && request.Ok? ==> sent.value == Merge(request.value, additionalQueryValues)
      ensures err == Pass <==> |url| > 0 && request.Ok? && response == Ok(200)
    {
      if |url| == 0 {
        return None, Fail(NoURL);
      }
      if request.Err? {
        return None, Fail(request.error);
      }
      var reValues := request.value;
      var pending := additionalQueryValues.Keys;
      assert Without(additionalQueryValues, pending) == map[];
      MergeNothing(request.value);
      while pending != {}
        invariant pending <= additionalQueryValues.Keys
        invariant reValues == Merge(request.value, Without(additionalQueryValues, pending))
        decreases pending
      {
        var key :| key in pending;
        var values := additionalQueryValues[key];
        ghost var before := reValues;
        var j := 0;
        while j < |values|
          invariant j <= |values|
          invariant reValues == AddAll(before, key, values[..j])
        {
          AddAllStep(before, key, values, j);
          reValues := Add(reValues, key, values[j]);
          j := j + 1;
        }
        assert values[..j] == values;
        MergeOneMoreKey(request.value, additionalQueryValues, pending, key);
        pending := pending - {key};
      }
      assert Without(additionalQueryValues, {}) == additionalQueryValues;
      sent := Some(reValues);
      match response {
        case Err(e) =>
          err := Fail(e);
        case Ok(code) =>
          if code != 200 {
            err := Fail(UnexpectedStatus(code));
          } else {
            err := Pass;
          }
      }
    }
  }
}
