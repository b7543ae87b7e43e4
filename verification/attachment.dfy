/** Attaching capabilities to one of a column's pipelines. The sanitizer
    and validator paths of the source have the same shape, so the logic is
    written once over `Capability<F>`. */
module Attachment {
  import opened Results
  import opened Capabilities

  /** The stages of `s` whose tag is `t`, in order: the `filter` behind
      hasSanitizer and hasValidator. */
  function OfTag<F>(s: seq<Capability<F>>, t: string): (r: seq<Capability<F>>)
    ensures |r| <= |s|
    ensures forall i :: 0 <= i < |r| ==> r[i].tag == t
    ensures |r| == 0 <==> forall i :: 0 <= i < |s| ==> s[i].tag != t
  {
    if |s| == 0 then []
    else (if s[0].tag == t then [s[0]] else []) + OfTag(s[1..], t)
  }

  /** OfTag is the filter: it keeps a single stage exactly when it has the
      tag, and filtering a concatenation concatenates the filtered parts.
      Together these determine the result on every list, order included. */
  lemma {:induction false} OfTagIsFilter<F>(a: seq<Capability<F>>, b: seq<Capability<F>>, x: Capability<F>, t: string)
    ensures OfTag([x], t) == if x.tag == t then [x] else []
    ensures OfTag(a + b, t) == OfTag(a, t) + OfTag(b, t)
    decreases |a|
  {
    assert [x][1..] == [];
    if |a| == 0 {
      assert a + b == b;
    } else {
      assert (a + b)[0] == a[0];
      assert (a + b)[1..] == a[1..] + b;
      OfTagIsFilter(a[1..], b, x, t);
    }
  }

  /** Whether some attached stage has tag `t`. */
  function HasTag<F>(s: seq<Capability<F>>, t: string): (b: bool)
    ensures b <==> exists i :: 0 <= i < |s| && s[i].tag == t
  {
    |OfTag(s, t)| > 0
  }

  /** One call of addSanitizer or addValidator on the attached list `s`.
      `candidate` is None when the argument is not an instance of the
      capability class. The duplicate check looks the candidate's NAME up
      among the attached TAGS. */
  function Append<F>(s: seq<Capability<F>>, candidate: Option<Capability<F>>, pipeline: Pipeline)
    : (r: Result<seq<Capability<F>>>)
    ensures candidate.None? ==> r == Err(InvalidCapability(pipeline))
    ensures candidate.Some? ==>
              (r.Ok? <==> forall i :: 0 <= i < |s| ==> s[i].tag != candidate.value.name)
    ensures r.Ok? ==> candidate.Some? && r.value == s + [candidate.value]
    ensures r.Err? && candidate.Some? ==>
              r.error == DuplicateCapability(pipeline, candidate.value.name)
  {
    if candidate.None? then Err(InvalidCapability(pipeline))
    else if HasTag(s, candidate.value.name) then Err(DuplicateCapability(pipeline, candidate.value.name))
    else Ok(s + [candidate.value])
  }

  /** Every candidate is an instance of the capability class. */
  predicate AllPresent<F>(cs: seq<Option<Capability<F>>>) {
    forall i :: 0 <= i < |cs| ==> cs[i].Some?
  }

  /** The capabilities held by `cs`, in order. */
  function Present<F>(cs: seq<Option<Capability<F>>>): (r: seq<Capability<F>>)
    requires AllPresent(cs)
    ensures |r| == |cs| && forall i :: 0 <= i < |cs| ==> r[i] == cs[i].value
  {
    seq(|cs|, i requires 0 <= i < |cs| => cs[i].value)
  }

  /** Every stage at position `from` or later has a name that no earlier
      stage carries as its tag. */
  ghost predicate NamesClearFrom<F>(s: seq<Capability<F>>, from: nat) {
    forall i, j :: from <= i < |s| && 0 <= j < i ==> s[j].tag != s[i].name
  }

  /** No two stages of `s` share a tag. */
  ghost predicate UniqueTags<F>(s: seq<Capability<F>>) {
    forall i, j :: 0 <= i < j < |s| ==> s[i].tag != s[j].tag
  }

  /** Every stage's name equals its tag. */
  ghost predicate SelfNamed<F>(s: seq<Capability<F>>) {
    forall i :: 0 <= i < |s| ==> s[i].name == s[i].tag
  }

  lemma NamesClearStep<F>(s: seq<Capability<F>>, c: Capability<F>, rest: seq<Capability<F>>)
    ensures NamesClearFrom(s + [c] + rest, |s|) <==>
              (forall j :: 0 <= j < |s| ==> s[j].tag != c.name) && NamesClearFrom(s + [c] + rest, |s| + 1)
  {
    var t := s + [c] + rest;
    assert t[|s|] == c;
    if NamesClearFrom(t, |s|) {
      forall j | 0 <= j < |s| ensures s[j].tag != c.name {
        assert t[j] == s[j];
      }
    }
    if (forall j :: 0 <= j < |s| ==> s[j].tag != c.name) && NamesClearFrom(t, |s| + 1) {
      forall i, j | |s| <= i < |t| && 0 <= j < i ensures t[j].tag != t[i].name {
        if i == |s| {
          assert t[j] == s[j];
        }
      }
    }
  }

  /** Candidate `k` is where attaching `cs` one by one to `s` stops: every
      earlier candidate is an instance and was accepted, and attaching
      candidate `k` to the list they built fails with `e`. */
  ghost predicate RefusedAt<F>(s: seq<Capability<F>>, cs: seq<Option<Capability<F>>>, pipeline: Pipeline, k: int, e: Error) {
    && 0 <= k < |cs|
    && AllPresent(cs[..k])
    && NamesClearFrom(s + Present(cs[..k]), |s|)
    && Append(s + Present(cs[..k]), cs[k], pipeline) == Err(e)
  }

  /** Attaching the candidates one after another, stopping at the first
      failure: the `forEach` of addSanitizer or addValidator in the Column
      constructor. */
  function AppendAll<F>(s: seq<Capability<F>>, cs: seq<Option<Capability<F>>>, pipeline: Pipeline)
    : (r: Result<seq<Capability<F>>>)
    ensures r.Ok? <==> AllPresent(cs) && NamesClearFrom(s + Present(cs), |s|)
    ensures r.Ok? ==> AllPresent(cs) && r.value == s + Present(cs)
    ensures r.Err? ==> (r.error.InvalidCapability? || r.error.DuplicateCapability?) && r.error.pipeline == pipeline
    ensures r.Err? ==> exists k :: RefusedAt(s, cs, pipeline, k, r.error)
    decreases |cs|
  {
    if |cs| == 0 then
      assert s + Present(cs) == s;
      Ok(s)
    else
      assert AllPresent(cs) ==> s + Present(cs) == s + [cs[0].value] + Present(cs[1..]);
      var first := Append(s, cs[0], pipeline);
      if first.Err? then
        assert !(AllPresent(cs) && NamesClearFrom(s + Present(cs), |s|)) by {
          if cs[0].Some? {
            NamesClearStep(s, cs[0].value, if AllPresent(cs[1..]) then Present(cs[1..]) else []);
          }
        }
        assert cs[..0] == [] && s + Present(cs[..0]) == s;
        assert RefusedAt(s, cs, pipeline, 0, first.error);
        first.PropagateFailure()
      else
        NamesClearStep(s, cs[0].value, if AllPresent(cs[1..]) then Present(cs[1..]) else []);
        var rest := AppendAll(first.value, cs[1..], pipeline);
        assert rest.Err? ==> exists k :: RefusedAt(s, cs, pipeline, k, rest.error) by {
          if rest.Err? {
            var k :| RefusedAt(first.value, cs[1..], pipeline, k, rest.error);
            RefusedLater(s, cs, pipeline, k, rest.error);
          }
        }
        rest
  }

  /** A refusal in the tail, after the head was accepted, is a refusal one
      position further on in the whole list. */
  lemma RefusedLater<F>(s: seq<Capability<F>>, cs: seq<Option<Capability<F>>>, pipeline: Pipeline, k: int, e: Error)
    requires |cs| > 0 && Append(s, cs[0], pipeline).Ok?
    requires RefusedAt(Append(s, cs[0], pipeline).value, cs[1..], pipeline, k, e)
    ensures RefusedAt(s, cs, pipeline, k + 1, e)
  {
    var c := cs[0].value;
    var prefix := Present(cs[1..][..k]);
    assert cs[..k + 1] == [cs[0]] + cs[1..][..k];
    assert AllPresent(cs[..k + 1]);
    assert Present(cs[..k + 1]) == [c] + prefix;
    assert s + Present(cs[..k + 1]) == s + [c] + prefix;
    NamesClearStep(s, c, prefix);
  }

  /** A second stage of an already-attached tag is accepted whenever its name
      differs from every attached tag: duplicate tags are not prevented. */
  lemma SharedTagAccepted()
    ensures var trim: Sanitizer := Capability("trim", "string", (x: Value) => x);
            var lower: Sanitizer := Capability("lower", "string", (x: Value) => x);
            && Append([trim], Some(lower), Sanitizing) == Ok([trim, lower])
            && !UniqueTags([trim, lower])
  {
    var trim: Sanitizer := Capability("trim", "string", (x: Value) => x);
    var lower: Sanitizer := Capability("lower", "string", (x: Value) => x);
    var s := [trim, lower];
    assert !HasTag([trim], "lower") by {
      assert [trim][0].tag == "string";
    }
    assert [trim] + [lower] == s;
    assert s[0].tag == s[1].tag;
  }

  /** A stage with a fresh tag is refused when its name is some attached tag. */
  lemma FreshTagRefused()
    ensures var a: Validator := Capability("a", "b", (x: Value) => []);
            var b: Validator := Capability("b", "c", (x: Value) => []);
            && Append([a], Some(b), Validating) == Err(DuplicateCapability(Validating, "b"))
            && UniqueTags([a, b])
  {
  }

  /** When every stage is named after its tag, the name-against-tag check is
      exactly a duplicate-tag check, so attaching keeps tags unique. */
  lemma SelfNamedAppendAll<F>(s: seq<Capability<F>>, cs: seq<Option<Capability<F>>>, pipeline: Pipeline)
    requires AllPresent(cs) && SelfNamed(s + Present(cs)) && UniqueTags(s)
    ensures AppendAll(s, cs, pipeline).Ok? <==> UniqueTags(s + Present(cs))
  {
  }
}
