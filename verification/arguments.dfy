/** Splitting a handler's arguments into the one request binding and the
    extractors, as the route macro's `filter_map(..).collect::<Result<_, _>>()`
    does: arguments are examined left to right and the first error ends the scan.

    The scan and its reference definitions take the request test on printed
    types as a parameter `isRequest`; the macro's own classification,
    `ClassifyArgs`, uses `RequestTypes.IsRequestType`. */
module Arguments {
  import opened Wrappers
  import opened Signature
  import opened RequestTypes
  import opened RouteErrors

  /** The outcome of a successful scan: the request binding, if any, and the
      extractors in argument order. */
  datatype Classified = Classified(request: Option<Binding>, extractors: seq<Binding>)

  /** A typed argument whose type passes the request test. */
  predicate IsRequestArg(isRequest: string -> bool, a: FnArg)
  {
    a.Typed? && isRequest(a.ty.printed)
  }

  /** A typed argument whose type does not pass the request test. */
  predicate IsExtractorArg(isRequest: string -> bool, a: FnArg)
  {
    a.Typed? && !isRequest(a.ty.printed)
  }

  function BindingOf(a: FnArg): Binding
    requires a.Typed?
  {
    Binding(a.pat, a.ty)
  }

  /** Examining one argument after the ones already seen: a receiver fails, a
      second request fails, a first request is kept, anything else is appended
      to the extractors. */
  function Step(isRequest: string -> bool, s: Classified, a: FnArg): (r: Result<Classified, RouteError>)
    ensures r.Failure? <==> a.Receiver? || (IsRequestArg(isRequest, a) && s.request.Some?)
    ensures r.Failure? ==> r.error == (if a.Receiver? then TakesSelf else RequestDefinedTwice)
    ensures r.Success? && IsRequestArg(isRequest, a) ==> r.value == s.(request := Some(BindingOf(a)))
    ensures r.Success? && IsExtractorArg(isRequest, a) ==> r.value == s.(extractors := s.extractors + [BindingOf(a)])
  {
    match a
    case Receiver => Failure(TakesSelf)
    case Typed(pat, ty) =>
      if isRequest(ty.printed) then
        if s.request.Some? then Failure(RequestDefinedTwice)
        else Success(s.(request := Some(Binding(pat, ty))))
      else Success(s.(extractors := s.extractors + [Binding(pat, ty)]))
  }

  /** Examining `args` in order from state `s`, stopping at the first error. */
  function Scan(isRequest: string -> bool, s: Classified, args: seq<FnArg>): Result<Classified, RouteError>
    decreases |args|
  {
    if |args| == 0 then Success(s)
    else
      match Step(isRequest, s, args[0])
      case Failure(e) => Failure(e)
      case Success(s') => Scan(isRequest, s', args[1..])
  }

  // ---- Reference definitions -------------------------------------------

  /** No argument is a `self` receiver. */
  predicate NoReceiver(args: seq<FnArg>)
  {
    forall i :: 0 <= i < |args| ==> !args[i].Receiver?
  }

  /** How many arguments pass the request test. */
  function CountRequests(isRequest: string -> bool, args: seq<FnArg>): nat
    decreases |args|
  {
    if |args| == 0 then 0
    else (if IsRequestArg(isRequest, args[0]) then 1 else 0) + CountRequests(isRequest, args[1..])
  }

  /** The first argument that passes the request test, if there is one. */
  function FirstRequest(isRequest: string -> bool, args: seq<FnArg>): (r: Option<Binding>)
    ensures r.None? <==> CountRequests(isRequest, args) == 0
    ensures r.Some? ==> exists i ::
      && 0 <= i < |args|
      && IsRequestArg(isRequest, args[i])
      && CountRequests(isRequest, args[..i]) == 0
      && r.value == BindingOf(args[i])
    decreases |args|
  {
    if |args| == 0 then None
    else if IsRequestArg(isRequest, args[0]) then
      assert args[..0] == [];
      Some(BindingOf(args[0]))
    else
      var r := FirstRequest(isRequest, args[1..]);
      assert r.Some? ==> exists i ::
        && 0 <= i < |args|
        && IsRequestArg(isRequest, args[i])
        && CountRequests(isRequest, args[..i]) == 0
        && r.value == BindingOf(args[i])
      by {
        if r.Some? {
          var i :| && 0 <= i < |args[1..]|
                   && IsRequestArg(isRequest, args[1..][i])
                   && CountRequests(isRequest, args[1..][..i]) == 0
                   && r.value == BindingOf(args[1..][i]);
          assert args[i + 1] == args[1..][i];
          CountRequestsShift(isRequest, args, i);
        }
      }
      r
  }

  /** The typed arguments that do not pass the request test, in their original order. */
  function Extractors(isRequest: string -> bool, args: seq<FnArg>): (r: seq<Binding>)
    ensures forall k :: 0 <= k < |r| ==> !isRequest(r[k].ty.printed)
    ensures NoReceiver(args) ==> |r| + CountRequests(isRequest, args) == |args|
    decreases |args|
  {
    if |args| == 0 then []
    else
      (if IsExtractorArg(isRequest, args[0]) then [BindingOf(args[0])] else [])
        + Extractors(isRequest, args[1..])
  }

  /** Argument `i` is rejected given what comes before it: it is a receiver, or
      it passes the request test and an earlier request was already seen
      (`seen` says whether one was seen before `args` began). */
  predicate Faulty(isRequest: string -> bool, args: seq<FnArg>, i: int, seen: bool)
    requires 0 <= i < |args|
  {
    || args[i].Receiver?
    || (IsRequestArg(isRequest, args[i]) && (seen || CountRequests(isRequest, args[..i]) > 0))
  }

  /** Argument `i` is the first rejected one. */
  predicate FirstFault(isRequest: string -> bool, args: seq<FnArg>, i: int, seen: bool)
  {
    && 0 <= i < |args|
    && Faulty(isRequest, args, i, seen)
    && forall j :: 0 <= j < i ==> !Faulty(isRequest, args, j, seen)
  }

  /** The error reported for a rejected argument. */
  function FaultError(a: FnArg): RouteError
  {
    if a.Receiver? then TakesSelf else RequestDefinedTwice
  }

  // ---- The scan meets the reference definitions -------------------------

  lemma CountRequestsShift(isRequest: string -> bool, args: seq<FnArg>, k: int)
    requires 0 <= k < |args|
    ensures CountRequests(isRequest, args[..k + 1])
         == (if IsRequestArg(isRequest, args[0]) then 1 else 0) + CountRequests(isRequest, args[1..][..k])
  {
    assert args[..k + 1][0] == args[0];
    assert args[..k + 1][1..] == args[1..][..k];
  }

  /** A scan succeeds exactly when there is no receiver and at most one request
      overall; it then appends the extractors in order and keeps the first request. */
  lemma {:induction false} ScanSuccess(isRequest: string -> bool, s: Classified, args: seq<FnArg>)
    ensures Scan(isRequest, s, args).Success? <==>
      NoReceiver(args) && CountRequests(isRequest, args) + (if s.request.Some? then 1 else 0) <= 1
    ensures Scan(isRequest, s, args).Success? ==>
      Scan(isRequest, s, args).value.extractors == s.extractors + Extractors(isRequest, args)
    ensures Scan(isRequest, s, args).Success? ==>
      Scan(isRequest, s, args).value.request
        == (if s.request.Some? then s.request else FirstRequest(isRequest, args))
    decreases |args|
  {
    if |args| == 0 {
      assert s.extractors + [] == s.extractors;
    } else {
      var a := args[0];
      var rest := args[1..];
      assert NoReceiver(args) <==> !a.Receiver? && NoReceiver(rest) by {
        if !a.Receiver? && NoReceiver(rest) {
          forall i | 0 <= i < |args| ensures !args[i].Receiver? {
            if i > 0 { assert args[i] == rest[i - 1]; }
          }
        }
      }
      match Step(isRequest, s, a)
      case Failure(e) =>
      case Success(s') =>
        ScanSuccess(isRequest, s', rest);
        if IsExtractorArg(isRequest, a) {
          assert s'.extractors == s.extractors + [BindingOf(a)];
          assert s.extractors + Extractors(isRequest, args)
              == s.extractors + [BindingOf(a)] + Extractors(isRequest, rest);
        } else {
          assert Extractors(isRequest, args) == [] + Extractors(isRequest, rest);
        }
    }
  }

  /** A failed scan reports the error of the first rejected argument. */
  lemma {:induction false} ScanFailure(isRequest: string -> bool, s: Classified, args: seq<FnArg>)
    requires Scan(isRequest, s, args).Failure?
    ensures exists i ::
      && FirstFault(isRequest, args, i, s.request.Some?)
      && Scan(isRequest, s, args).error == FaultError(args[i])
    decreases |args|
  {
    var seen := s.request.Some?;
    var a := args[0];
    var rest := args[1..];
    assert args[..0] == [];
    match Step(isRequest, s, a)
    case Failure(e) =>
      assert FirstFault(isRequest, args, 0, seen);
    case Success(s') =>
      var seen' := s'.request.Some?;
      assert seen' == (seen || IsRequestArg(isRequest, a));
      ScanFailure(isRequest, s', rest);
      var i :| FirstFault(isRequest, rest, i, seen') && Scan(isRequest, s', rest).error == FaultError(rest[i]);
      forall j | 0 <= j < |rest|
        ensures Faulty(isRequest, args, j + 1, seen) <==> Faulty(isRequest, rest, j, seen')
      {
        CountRequestsShift(isRequest, args, j);
        assert args[j + 1] == rest[j];
      }
      assert !Faulty(isRequest, args, 0, seen);
      forall j | 0 <= j < i + 1 ensures !Faulty(isRequest, args, j, seen) {
        if j > 0 { assert !Faulty(isRequest, rest, j - 1, seen'); }
      }
      assert FirstFault(isRequest, args, i + 1, seen);
  }

  /** The route macro's argument classification: the scan with the macro's request test. */
  function ClassifyArgs(args: seq<FnArg>): (r: Result<Classified, RouteError>)
    ensures r.Success? <==> NoReceiver(args) && CountRequests(IsRequestType, args) <= 1
    ensures r.Success? ==> r.value.extractors == Extractors(IsRequestType, args)
    ensures r.Success? ==> r.value.request == FirstRequest(IsRequestType, args)
    ensures r.Failure? ==> exists i :: FirstFault(IsRequestType, args, i, false) && r.error == FaultError(args[i])
  {
    var start := Classified(None, []);
    var r := Scan(IsRequestType, start, args);
    ScanSuccess(IsRequestType, start, args);
    if r.Failure? then ScanFailure(IsRequestType, start, args); r else r
  }

  // ---- Consequences ---------------------------------------------------------

  /** A `self` receiver anywhere among the arguments rejects the handler. */
  lemma ReceiverRejected(isRequest: string -> bool, args: seq<FnArg>, i: int)
    requires 0 <= i < |args| && args[i].Receiver?
    ensures Scan(isRequest, Classified(None, []), args).Failure?
  {
    ScanSuccess(isRequest, Classified(None, []), args);
  }

  /** A receiver before any second request is reported as such. */
  lemma ReceiverFirstReported(isRequest: string -> bool, args: seq<FnArg>, i: int)
    requires 0 <= i < |args| && args[i].Receiver?
    requires forall j :: 0 <= j < i ==> args[j].Typed?
    requires CountRequests(isRequest, args[..i]) <= 1
    ensures Scan(isRequest, Classified(None, []), args) == Failure(TakesSelf)
  {
    var start := Classified(None, []);
    ScanSuccess(isRequest, start, args);
    ScanFailure(isRequest, start, args);
    var r := Scan(isRequest, start, args);
    var k :| FirstFault(isRequest, args, k, false) && r.error == FaultError(args[k]);
    assert Faulty(isRequest, args, i, false);
    if k < i {
      assert IsRequestArg(isRequest, args[k]) && CountRequests(isRequest, args[..k]) > 0;
      CountRequestsPrefix(isRequest, args, k, i);
      assert false;
    }
  }

  /** Counting requests over a longer prefix never counts fewer, and counts
      one more for a request at position `k`. */
  lemma {:induction false} CountRequestsPrefix(isRequest: string -> bool, args: seq<FnArg>, k: int, i: int)
    requires 0 <= k < i <= |args|
    ensures CountRequests(isRequest, args[..i])
         >= CountRequests(isRequest, args[..k]) + (if IsRequestArg(isRequest, args[k]) then 1 else 0)
    decreases k
  {
    if k == 0 {
      assert args[..i][0] == args[0];
    } else {
      CountRequestsShift(isRequest, args, k - 1);
      CountRequestsShift(isRequest, args, i - 1);
      CountRequestsPrefix(isRequest, args[1..], k - 1, i - 1);
      assert args[1..][k - 1] == args[k];
    }
  }

  lemma {:induction false} CountRequestsUpTo(isRequest: string -> bool, args: seq<FnArg>, i: int)
    requires 0 <= i <= |args|
    ensures CountRequests(isRequest, args[..i]) <= CountRequests(isRequest, args)
    decreases i
  {
    if i > 0 {
      CountRequestsShift(isRequest, args, i - 1);
      CountRequestsUpTo(isRequest, args[1..], i - 1);
    }
  }

  /** Two request-typed arguments reject the handler. */
  lemma SecondRequestRejected(isRequest: string -> bool, args: seq<FnArg>, i: int, j: int)
    requires 0 <= i < j < |args|
    requires IsRequestArg(isRequest, args[i]) && IsRequestArg(isRequest, args[j])
    ensures Scan(isRequest, Classified(None, []), args).Failure?
  {
    CountRequestsPrefix(isRequest, args, i, j);
    CountRequestsPrefix(isRequest, args, j, j + 1);
    CountRequestsUpTo(isRequest, args, j + 1);
    ScanSuccess(isRequest, Classified(None, []), args);
  }

  /** Extracting from two argument lists in a row extracts from each in turn. */
  lemma {:induction false} ExtractorsAppend(isRequest: string -> bool, a: seq<FnArg>, b: seq<FnArg>)
    ensures Extractors(isRequest, a + b) == Extractors(isRequest, a) + Extractors(isRequest, b)
    decreases |a|
  {
    if |a| == 0 {
      assert a + b == b;
    } else {
      assert (a + b)[0] == a[0];
      assert (a + b)[1..] == a[1..] + b;
      ExtractorsAppend(isRequest, a[1..], b);
    }
  }

  /** Every typed argument that fails the request test appears among the
      extractors exactly once, after the extractors of the arguments before it
      and before those of the arguments after it; a request argument
      contributes nothing. */
  lemma ExtractorInPlace(isRequest: string -> bool, args: seq<FnArg>, i: int)
    requires 0 <= i < |args| && args[i].Typed?
    ensures Extractors(isRequest, args) == Extractors(isRequest, args[..i])
      + (if IsRequestArg(isRequest, args[i]) then [] else [BindingOf(args[i])])
      + Extractors(isRequest, args[i + 1..])
  {
    SplitAt(args, i);
    ExtractorsAppend(isRequest, args[..i], [args[i]] + args[i + 1..]);
    ExtractorsAppend(isRequest, [args[i]], args[i + 1..]);
    ExtractorsSingle(isRequest, args[i]);
  }

  /** A list is what comes before position `i`, the element there, and the rest. */
  lemma SplitAt<T>(s: seq<T>, i: int)
    requires 0 <= i < |s|
    ensures s == s[..i] + ([s[i]] + s[i + 1..])
  {
  }

  /** A single typed argument is an extractor unless it is the request. */
  lemma ExtractorsSingle(isRequest: string -> bool, a: FnArg)
    requires a.Typed?
    ensures Extractors(isRequest, [a]) == if IsRequestArg(isRequest, a) then [] else [BindingOf(a)]
  {
    assert [a][1..] == [];
  }
}
