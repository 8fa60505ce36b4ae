/** Two-phase admission to a window's reservoir: an error reserve first, then the best of the rest under a
    per-kind cap. */
module Reservoir {
  import opened Identifiers
  import opened Orders

  datatype Candidate = Candidate(id: TemplateId, salience: nat)

  datatype Caps = Caps(size: nat, errorReserve: nat, perKind: nat)

  /** More salient first, then the lower id. */
  const Outranks: (Candidate, Candidate) -> bool :=
    (a: Candidate, b: Candidate) => a.salience > b.salience || (a.salience == b.salience && a.id < b.id)

  lemma OutranksIsTotal()
    ensures StrictTotal(Outranks)
  {
    forall x, y ensures x == y || Outranks(x, y) || Outranks(y, x)
        { assert x == Candidate(x.id, x.salience) && y == Candidate(y.id, y.salience); }
  }

  function Ids(s: seq<Candidate>): (r: seq<TemplateId>)
    ensures |r| == |s| && forall i :: 0 <= i < |r| ==> r[i] == s[i].id
  {
    seq(|s|, i requires 0 <= i < |s| => s[i].id)
  }

  /** No template is a candidate twice. */
  ghost predicate DistinctIds(s: seq<Candidate>)
      { forall i, j {:trigger s[i], s[j]} :: 0 <= i < j < |s| ==> s[i].id != s[j].id }

  // ---------------------------------------------------------------- the reserve

  function Errors(s: seq<Candidate>, isError: TemplateId -> bool): seq<Candidate> {
    if s == [] then []
    else
      var front, last := Errors(s[..|s| - 1], isError), s[|s| - 1];
      if isError(last.id) then front + [last] else front
  }

  /** The reserve is exempt from the per-kind cap: the first error-class candidates in rank. */
  function Reserved(s: seq<Candidate>, isError: TemplateId -> bool, caps: Caps): seq<Candidate> {
    var errors := Errors(s, isError);
    errors[..Min(Min(caps.errorReserve, caps.size), |errors|)]
  }

  lemma ErrorsSnoc(s: seq<Candidate>, x: Candidate, isError: TemplateId -> bool)
    ensures Errors(s + [x], isError) == if isError(x.id) then Errors(s, isError) + [x] else Errors(s, isError)
  {
    assert (s + [x])[..|s|] == s;
  }

  lemma {:induction false} ErrorsAre(s: seq<Candidate>, isError: TemplateId -> bool)
    requires DistinctIds(s)
    ensures DistinctIds(Errors(s, isError)) && forall x :: x in Errors(s, isError) <==> x in s && isError(x.id)
  {
    if s != [] {
      var front, last := s[..|s| - 1], s[|s| - 1];
      assert s == front + [last] && last !in front;
      ErrorsAre(front, isError);
    }
  }

  lemma {:induction false} ErrorsGrow(s: seq<Candidate>, n: nat, isError: TemplateId -> bool)
    requires n <= |s|
    ensures |Errors(s[..n], isError)| <= |Errors(s, isError)|
        && Errors(s, isError)[..|Errors(s[..n], isError)|] == Errors(s[..n], isError)
    decreases |s| - n
  {
    if n == |s| {
      assert s[..n] == s;
    } else {
      assert s[..n + 1] == s[..n] + [s[n]];
      ErrorsSnoc(s[..n], s[n], isError);
      ErrorsGrow(s, n + 1, isError);
    }
  }

  // ---------------------------------------------------------------- the general pool

  function OfKind(s: seq<Candidate>, kindOf: TemplateId -> nat, kind: nat): nat {
    if s == [] then 0 else OfKind(s[..|s| - 1], kindOf, kind) + if kindOf(s[|s| - 1].id) == kind then 1 else 0
  }

  predicate Admits(reserved: seq<Candidate>, general: seq<Candidate>, x: Candidate, kindOf: TemplateId -> nat,
                   caps: Caps) {
    && |reserved| + |general| < caps.size && x.id !in Ids(reserved)
    && (caps.perKind == 0 || OfKind(general, kindOf, kindOf(x.id)) < caps.perKind)
  }

  function General(s: seq<Candidate>, reserved: seq<Candidate>, kindOf: TemplateId -> nat, caps: Caps): seq<Candidate> {
    if s == [] then []
    else
      var before, x := General(s[..|s| - 1], reserved, kindOf, caps), s[|s| - 1];
      if Admits(reserved, before, x, kindOf, caps) then before + [x] else before
  }

  lemma GeneralSnoc(s: seq<Candidate>, x: Candidate, reserved: seq<Candidate>, kindOf: TemplateId -> nat, caps: Caps)
    ensures General(s + [x], reserved, kindOf, caps)
         == if Admits(reserved, General(s, reserved, kindOf, caps), x, kindOf, caps)
             then General(s, reserved, kindOf, caps) + [x]
            else General(s, reserved, kindOf, caps)
  {
    assert (s + [x])[..|s|] == s;
  }

  lemma OfKindSnoc(s: seq<Candidate>, x: Candidate, kindOf: TemplateId -> nat, kind: nat)
    ensures OfKind(s + [x], kindOf, kind) == OfKind(s, kindOf, kind) + if kindOf(x.id) == kind then 1 else 0
  {
    assert (s + [x])[..|s|] == s;
  }

  lemma {:induction false} GeneralWithin(s: seq<Candidate>, reserved: seq<Candidate>, kindOf: TemplateId -> nat,
                                         caps: Caps)
    requires DistinctIds(s) && |reserved| <= caps.size
    ensures var g := General(s, reserved, kindOf, caps);
            && |reserved| + |g| <= caps.size && DistinctIds(g)
                && (forall x :: x in g ==> x in s && x.id !in Ids(reserved))
            && (caps.perKind > 0 ==> forall kind :: OfKind(g, kindOf, kind) <= caps.perKind)
  {
    if s != [] {
      var front, x := s[..|s| - 1], s[|s| - 1];
      assert s == front + [x] && x !in front;
      GeneralWithin(front, reserved, kindOf, caps);
      var g := General(front, reserved, kindOf, caps);
      forall kind ensures OfKind(g + [x], kindOf, kind) == OfKind(g, kindOf, kind) + if kindOf(x.id) == kind then 1
          else 0 { OfKindSnoc(g, x, kindOf, kind); }
      hide OfKind;
    }
  }

  /** Exactly who is admitted: a candidate not reserved, reached while there is room and while its kind has
      had fewer than the cap of better-ranked general admits. */
  lemma {:induction false} GeneralIff(s: seq<Candidate>, reserved: seq<Candidate>, kindOf: TemplateId -> nat,
                                      caps: Caps, i: nat)
    requires DistinctIds(s) && i < |s| && |reserved| <= caps.size
    ensures s[i] in General(s, reserved, kindOf, caps) <==>
        Admits(reserved, General(s[..i], reserved, kindOf, caps), s[i], kindOf, caps)
  {
    var front, x := s[..|s| - 1], s[|s| - 1];
    assert s == front + [x] && x !in front;
    GeneralWithin(front, reserved, kindOf, caps);
    if i < |front| {
      GeneralIff(front, reserved, kindOf, caps, i);
      assert front[..i] == s[..i] && front[i] == s[i] != x;
    }
  }

  /** A full reservoir admits nothing more. */
  lemma {:induction false} GeneralFull(s: seq<Candidate>, n: nat, reserved: seq<Candidate>, kindOf: TemplateId -> nat,
                                       caps: Caps)
    requires n <= |s| && |reserved| + |General(s[..n], reserved, kindOf, caps)| >= caps.size
    ensures General(s, reserved, kindOf, caps) == General(s[..n], reserved, kindOf, caps)
    decreases |s|
  {
    if n < |s| {
      var front := s[..|s| - 1];
      assert front[..n] == s[..n];
      GeneralFull(front, n, reserved, kindOf, caps);
    } else {
      assert s[..n] == s;
    }
  }

  // ---------------------------------------------------------------- admission

  function Admitted(s: seq<Candidate>, isError: TemplateId -> bool, kindOf: TemplateId -> nat,
                    caps: Caps): seq<Candidate> {
    Reserved(s, isError, caps) + General(s, Reserved(s, isError, caps), kindOf, caps)
  }

  method AdmitReservoir(candidates: seq<Candidate>, isError: TemplateId -> bool, kindOf: TemplateId -> nat,
                        caps: Caps) returns (reservoir: seq<Candidate>)
    ensures StrictTotal(Outranks) && reservoir == Admitted(SortedBy(Outranks, candidates), isError, kindOf, caps)
  {
    OutranksIsTotal();
    var ranked := Sort(Outranks, candidates);
    SortedUnique(Outranks, ranked, SortedBy(Outranks, candidates));
    reservoir := AdmitReserve(ranked, isError, caps);
    reservoir := AdmitGeneral(ranked, reservoir, kindOf, caps);
  }

  method AdmitReserve(ranked: seq<Candidate>, isError: TemplateId -> bool, caps: Caps)
      returns (reserved: seq<Candidate>)
    ensures reserved == Reserved(ranked, isError, caps)
  {
    reserved := [];
    var reserve := Min(caps.errorReserve, caps.size);
    var i := 0;
    while i < |ranked| && |reserved| < reserve
      invariant i <= |ranked| && |reserved| <= reserve && reserved == Errors(ranked[..i], isError)
    {
      assert ranked[..i + 1] == ranked[..i] + [ranked[i]];
      ErrorsSnoc(ranked[..i], ranked[i], isError);
      if isError(ranked[i].id) {
        reserved := reserved + [ranked[i]];
      }
      i := i + 1;
    }
    ErrorsGrow(ranked, i, isError);
    assert i == |ranked| ==> ranked[..i] == ranked;
  }

  method AdmitGeneral(ranked: seq<Candidate>, reserved: seq<Candidate>, kindOf: TemplateId -> nat, caps: Caps)
      returns (reservoir: seq<Candidate>)
    ensures reservoir == reserved + General(ranked, reserved, kindOf, caps)
  {
    reservoir := reserved;
    var perKind: map<nat, nat> := map[];
    var i := 0;
    while i < |ranked| && |reservoir| < caps.size
      invariant i <= |ranked| && reservoir == reserved + General(ranked[..i], reserved, kindOf, caps)
      invariant caps.perKind > 0 ==>
        forall kind :: (if kind in perKind then perKind[kind]
            else 0) == OfKind(General(ranked[..i], reserved, kindOf, caps), kindOf, kind)
    {
      var x := ranked[i];
      ghost var general := General(ranked[..i], reserved, kindOf, caps);
      assert ranked[..i + 1] == ranked[..i] + [x];
      GeneralSnoc(ranked[..i], x, reserved, kindOf, caps);
      i := i + 1;
      if x.id in Ids(reserved) {
        continue;
      }
      if caps.perKind > 0 {
        var kind := kindOf(x.id);
        var count := if kind in perKind then perKind[kind] else 0;
        if count >= caps.perKind {
          continue;
        }
        perKind := perKind[kind := count + 1];
      }
      forall kind ensures OfKind(general + [x], kindOf, kind) == OfKind(general, kindOf, kind) + if kindOf(x.id)
          == kind then 1 else 0 {
        OfKindSnoc(general, x, kindOf, kind);
      }
      reservoir := reservoir + [x];
    }
    if i < |ranked| {
      GeneralFull(ranked, i, reserved, kindOf, caps);
    } else {
      assert ranked[..i] == ranked;
    }
  }

  // ---------------------------------------------------------------- what admission guarantees

  lemma NothingFits(s: seq<Candidate>, isError: TemplateId -> bool, kindOf: TemplateId -> nat, caps: Caps)
    requires caps.size == 0 || s == []
    ensures Admitted(s, isError, kindOf, caps) == []
  {
    var reserved := Reserved(s, isError, caps);
    assert reserved == [];
    assert General(s[..0], reserved, kindOf, caps) == [];
    hide General, Reserved;
    if caps.size == 0 {
      GeneralFull(s, 0, reserved, kindOf, caps);
    } else {
      assert s[..0] == s;
    }
  }

  lemma ReservedIs(s: seq<Candidate>, isError: TemplateId -> bool, caps: Caps)
    requires DistinctIds(s)
    ensures var r := Reserved(s, isError, caps);
            && |r| == Min(Min(caps.errorReserve, caps.size), |Errors(s, isError)|) && DistinctIds(r)
            && forall x :: x in r ==> x in s && isError(x.id)
  {
    ErrorsAre(s, isError);
  }

  /** At most the size, no candidate twice, and at least as many error-class entries as the reserve, the
      size and the candidates allow. */
  lemma AdmissionWithin(s: seq<Candidate>, isError: TemplateId -> bool, kindOf: TemplateId -> nat, caps: Caps)
    requires DistinctIds(s)
    ensures var r := Admitted(s, isError, kindOf, caps);
            && |r| <= caps.size && DistinctIds(r) && (forall x :: x in r ==> x in s)
            && |Errors(r, isError)| >= Min(Min(caps.errorReserve, caps.size), |Errors(s, isError)|)
  {
    hide General, Reserved, Errors;
    ReservedIs(s, isError, caps);
    var reserved := Reserved(s, isError, caps);
    GeneralWithin(s, reserved, kindOf, caps);
    var r := Admitted(s, isError, kindOf, caps);
    assert r[..|reserved|] == reserved;
    ErrorsGrow(r, |reserved|, isError);
    AllErrors(reserved, isError);
    DisjointConcat(reserved, General(s, reserved, kindOf, caps));
  }

  lemma DisjointConcat(a: seq<Candidate>, b: seq<Candidate>)
    requires DistinctIds(a) && DistinctIds(b) && forall x :: x in b ==> x.id !in Ids(a)
    ensures DistinctIds(a + b)
  {
    forall i, j | 0 <= i < j < |a + b| ensures (a + b)[i].id != (a + b)[j].id {
      assert j >= |a| ==> (a + b)[j] == b[j - |a|] && b[j - |a|] in b;
      assert i < |a| ==> Ids(a)[i] == (a + b)[i].id;
    }
  }

  lemma {:induction false} AllErrors(s: seq<Candidate>, isError: TemplateId -> bool)
    requires forall x :: x in s ==> isError(x.id)
    ensures Errors(s, isError) == s
  {
    if s != [] {
      assert forall x :: x in s[..|s| - 1] ==> x in s;
      assert s[|s| - 1] in s;
      AllErrors(s[..|s| - 1], isError);
    }
  }

  /** Candidates not reserved, in rank. */
  function Unreserved(s: seq<Candidate>, reserved: seq<Candidate>): seq<Candidate> {
    if s == [] then []
    else
      var front, x := Unreserved(s[..|s| - 1], reserved), s[|s| - 1];
      if x.id in Ids(reserved) then front else front + [x]
  }

  /** Without a per-kind cap the reserve is followed by the best of the rest, as many as fit. */
  lemma {:induction false} UncappedIsBestOfRest(s: seq<Candidate>, reserved: seq<Candidate>,
                                                kindOf: TemplateId -> nat, caps: Caps)
    requires caps.perKind == 0 && |reserved| <= caps.size
    ensures var rest := Unreserved(s, reserved);
            General(s, reserved, kindOf, caps) == rest[..Min(caps.size - |reserved|, |rest|)]
  {
    if s != [] {
      var front, x := s[..|s| - 1], s[|s| - 1];
      UncappedIsBestOfRest(front, reserved, kindOf, caps);
      var rest, room := Unreserved(front, reserved), caps.size - |reserved|;
      if |rest| >= room {
        assert (rest + [x])[..room] == rest[..room];
      }
    }
  }

  /** A candidate left out while there is room is of a kind the better-ranked general admits have filled. */
  lemma LeftOutIsSaturated(s: seq<Candidate>, isError: TemplateId -> bool, kindOf: TemplateId -> nat, caps: Caps,
                           i: nat)
    requires DistinctIds(s) && i < |s| && s[i] !in Admitted(s, isError, kindOf, caps)
        && |Admitted(s, isError, kindOf, caps)| < caps.size
    ensures caps.perKind > 0
    ensures OfKind(General(s[..i], Reserved(s, isError, caps), kindOf, caps), kindOf, kindOf(s[i].id)) == caps.perKind
  {
    var reserved := Reserved(s, isError, caps);
    ReservedIs(s, isError, caps);
    GeneralIff(s, reserved, kindOf, caps, i);
    GeneralGrows(s, reserved, kindOf, caps, i);
    assert forall j, k :: 0 <= j < k < i ==> s[..i][j] != s[..i][k];
    GeneralWithin(s[..i], reserved, kindOf, caps);
    hide General, Reserved, OfKind;
  }

  lemma {:induction false} GeneralGrows(s: seq<Candidate>, reserved: seq<Candidate>, kindOf: TemplateId -> nat,
                                        caps: Caps, n: nat)
    requires n <= |s|
    ensures |General(s[..n], reserved, kindOf, caps)| <= |General(s, reserved, kindOf, caps)|
    decreases |s|
  {
    if n == |s| {
      assert s[..n] == s;
    } else {
      assert s[..|s| - 1][..n] == s[..n];
      GeneralGrows(s[..|s| - 1], reserved, kindOf, caps, n);
    }
  }

  /** The reservoir depends on which candidates there are, not on the order they were collected in. */
  lemma AdmissionForgetsOrder(a: seq<Candidate>, b: seq<Candidate>, isError: TemplateId -> bool,
                              kindOf: TemplateId -> nat, caps: Caps)
    requires multiset(a) == multiset(b)
    ensures StrictTotal(Outranks)
         && Admitted(SortedBy(Outranks, a), isError, kindOf, caps)
             == Admitted(SortedBy(Outranks, b), isError, kindOf, caps)
  {
    OutranksIsTotal();
    hide Outranks, Admitted;
    SortedByPermutation(Outranks, a, b);
  }
}
