/** What a column's pipelines compute: sanitizers are threaded one into the
    next, validators are each applied to the original value and their
    messages concatenated. */
module Pipelines {
  import opened Capabilities

  /** The left fold of `s` over `v`: the first stage sees `v`, every later
      stage sees its predecessor's output. */
  function Chain(s: seq<Sanitizer>, v: Value): Value
    decreases |s|
  {
    if |s| == 0 then v else Chain(s[1..], s[0].apply(v))
  }

  /** Every validator of `s` applied to `v` itself, messages concatenated in
      order. */
  function Gather(s: seq<Validator>, v: Value): seq<string>
    decreases |s|
  {
    if |s| == 0 then [] else s[0].apply(v) + Gather(s[1..], v)
  }

  /** Running two pipelines back to back is running their concatenation. */
  lemma {:induction false} ChainAppend(a: seq<Sanitizer>, b: seq<Sanitizer>, v: Value)
    ensures Chain(a + b, v) == Chain(b, Chain(a, v))
    decreases |a|
  {
    if |a| > 0 {
      assert (a + b)[1..] == a[1..] + b;
      ChainAppend(a[1..], b, a[0].apply(v));
    } else {
      assert a + b == b;
    }
  }

  /** A stage attached last sees the output of all earlier stages. */
  lemma ChainSnoc(s: seq<Sanitizer>, last: Sanitizer, v: Value)
    ensures Chain(s + [last], v) == last.apply(Chain(s, v))
  {
    ChainAppend(s, [last], v);
  }

  /** The messages of a concatenation are the concatenated messages. */
  lemma {:induction false} GatherAppend(a: seq<Validator>, b: seq<Validator>, v: Value)
    ensures Gather(a + b, v) == Gather(a, v) + Gather(b, v)
    decreases |a|
  {
    if |a| > 0 {
      assert (a + b)[1..] == a[1..] + b;
      GatherAppend(a[1..], b, v);
    } else {
      assert a + b == b;
    }
  }

  /** A message is reported exactly when some validator, applied to the
      original value, reports it: validators are not chained. */
  lemma {:induction false} GatherMessages(s: seq<Validator>, v: Value, m: string)
    ensures m in Gather(s, v) <==> exists i :: 0 <= i < |s| && m in s[i].apply(v)
    decreases |s|
  {
    if |s| > 0 {
      GatherMessages(s[1..], v, m);
      if m in Gather(s[1..], v) {
        var i :| 0 <= i < |s[1..]| && m in s[1..][i].apply(v);
        assert m in s[i + 1].apply(v);
      }
      if exists i :: 0 <= i < |s| && m in s[i].apply(v) {
        var i :| 0 <= i < |s| && m in s[i].apply(v);
        if i > 0 {
          assert s[1..][i - 1] == s[i];
        }
      }
    }
  }

  /** A value is valid (no messages) exactly when every validator accepts it. */
  lemma {:induction false} GatherEmpty(s: seq<Validator>, v: Value)
    ensures Gather(s, v) == [] <==> forall i :: 0 <= i < |s| ==> s[i].apply(v) == []
    decreases |s|
  {
    if |s| > 0 {
      GatherEmpty(s[1..], v);
      if forall i :: 0 <= i < |s| ==> s[i].apply(v) == [] {
        forall i | 0 <= i < |s[1..]| ensures s[1..][i].apply(v) == [] {
          assert s[1..][i] == s[i + 1];
        }
      }
    }
  }
}
