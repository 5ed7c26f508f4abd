/** Recognising the request argument of a handler by the printed text of its type. */
module RequestTypes {

  /** The type paths that mark an argument as the request, in the order they are tried. */
  const RequestTypePaths: seq<string> :=
    ["::submillisecond::Request", "submillisecond::Request", "Request"]

  /** `p` is a prefix of `s` (Rust's `str::starts_with`). */
  predicate StartsWith(s: string, p: string)
  {
    |p| <= |s| && s[..|p|] == p
  }

  /** `s` with every space character deleted (Rust's `replace(' ', "")`). */
  function RemoveSpaces(s: string): (r: string)
    ensures |r| <= |s|
    ensures forall i :: 0 <= i < |r| ==> r[i] != ' '
    decreases |s|
  {
    if |s| == 0 then []
    else (if s[0] == ' ' then [] else [s[0]]) + RemoveSpaces(s[1..])
  }

  /** Some path of `prefixes` is a prefix of `s` (Rust's `iter().any(starts_with)`). */
  function StartsWithAny(s: string, prefixes: seq<string>): (b: bool)
    ensures b <==> exists i :: 0 <= i < |prefixes| && StartsWith(s, prefixes[i])
    decreases |prefixes|
  {
    if |prefixes| == 0 then false
    else StartsWith(s, prefixes[0]) || StartsWithAny(s, prefixes[1..])
  }

  /** The type printed as `printed` is the request type: once spaces are
      removed it begins with one of the request type paths. A prefix test, so
      `RequestFoo` counts too. */
  predicate IsRequestType(printed: string)
  {
    StartsWithAny(RemoveSpaces(printed), RequestTypePaths)
  }

  /** Removing spaces distributes over concatenation. */
  lemma {:induction false} RemoveSpacesAppend(a: string, b: string)
    ensures RemoveSpaces(a + b) == RemoveSpaces(a) + RemoveSpaces(b)
    decreases |a|
  {
    if |a| == 0 {
      assert a + b == b;
    } else {
      assert (a + b)[0] == a[0];
      assert (a + b)[1..] == a[1..] + b;
      RemoveSpacesAppend(a[1..], b);
    }
  }

  /** A string without spaces is left as it is. */
  lemma {:induction false} RemoveSpacesNoSpaces(s: string)
    requires forall i :: 0 <= i < |s| ==> s[i] != ' '
    ensures RemoveSpaces(s) == s
    decreases |s|
  {
    if |s| != 0 {
      RemoveSpacesNoSpaces(s[1..]);
      assert [s[0]] + s[1..] == s;
    }
  }

  /** Removing spaces twice is removing them once. */
  lemma RemoveSpacesIdempotent(s: string)
    ensures RemoveSpaces(RemoveSpaces(s)) == RemoveSpaces(s)
  {
    RemoveSpacesNoSpaces(RemoveSpaces(s));
  }

  /** A single space between two pieces of text disappears. */
  lemma RemoveSpaceBetween(a: string, b: string)
    ensures RemoveSpaces(a + " " + b) == RemoveSpaces(a) + RemoveSpaces(b)
  {
    RemoveSpacesAppend(a + " ", b);
    RemoveSpacesAppend(a, " ");
    assert RemoveSpaces(" ") == [];
    assert RemoveSpaces(a) + [] == RemoveSpaces(a);
  }

  /** Spaces anywhere in the printed type do not change whether it is the request type. */
  lemma SpacesIrrelevant(a: string, b: string)
    ensures IsRequestType(a + " " + b) <==> IsRequestType(a + b)
  {
    RemoveSpaceBetween(a, b);
    RemoveSpacesAppend(a, b);
  }

  /** The request test spelled out: the space-free text starts with one of the three paths. */
  lemma IsRequestTypeCases(printed: string)
    ensures IsRequestType(printed) <==>
      (var t := RemoveSpaces(printed);
       StartsWith(t, "::submillisecond::Request")
       || StartsWith(t, "submillisecond::Request")
       || StartsWith(t, "Request"))
  {
  }

  /** No request type path is a prefix of another, so none of the three is redundant. */
  lemma PathsIndependent(i: int, j: int)
    requires 0 <= i < |RequestTypePaths| && 0 <= j < |RequestTypePaths| && i != j
    ensures !StartsWith(RequestTypePaths[i], RequestTypePaths[j])
  {
    assert RequestTypePaths[0][0] == ':';
    assert RequestTypePaths[1][0] == 's';
    assert RequestTypePaths[2][0] == 'R';
  }

  /** Four space-free tokens printed with spaces between them lose exactly those spaces. */
  lemma SpacedTokens(a: string, b: string, c: string, d: string)
    requires forall i :: 0 <= i < |a| ==> a[i] != ' '
    requires forall i :: 0 <= i < |b| ==> b[i] != ' '
    requires forall i :: 0 <= i < |c| ==> c[i] != ' '
    requires forall i :: 0 <= i < |d| ==> d[i] != ' '
    ensures RemoveSpaces(a + " " + b + " " + c + " " + d) == a + b + c + d
  {
    RemoveSpacesNoSpaces(a);
    RemoveSpacesNoSpaces(b);
    RemoveSpacesNoSpaces(c);
    RemoveSpacesNoSpaces(d);
    RemoveSpaceBetween(a + " " + b + " " + c, d);
    RemoveSpaceBetween(a + " " + b, c);
    RemoveSpaceBetween(a, b);
  }

  /** Text whose space-free form is a request type path stays a request type
      whatever is printed after it. */
  lemma RecognisedWhateverFollows(printed: string, rest: string, k: int)
    requires 0 <= k < |RequestTypePaths| && RemoveSpaces(printed) == RequestTypePaths[k]
    ensures IsRequestType(printed + rest)
  {
    RemoveSpacesAppend(printed, rest);
    var t := RemoveSpaces(printed + rest);
    assert t[..|RequestTypePaths[k]|] == RequestTypePaths[k];
    assert StartsWith(t, RequestTypePaths[k]);
  }

  /** The fully qualified request type, as `syn` prints it with spaces between
      its tokens, loses exactly those spaces and becomes the first request path. */
  lemma SpacedQualifiedPath()
    ensures RemoveSpaces(":: submillisecond :: Request") == RequestTypePaths[0]
  {
    SpacedTokens("::", "submillisecond", "::", "Request");
    QualifiedPrintedTokens();
    QualifiedPathTokens();
  }

  /** The spaced form of the qualified path is its tokens joined by single spaces. */
  lemma QualifiedPrintedTokens()
    ensures "::" + " " + "submillisecond" + " " + "::" + " " + "Request" == ":: submillisecond :: Request"
  {
  }

  /** The first request type path is its tokens joined without spaces. */
  lemma QualifiedPathTokens()
    ensures "::" + "submillisecond" + "::" + "Request" == RequestTypePaths[0]
  {
  }

  /** The fully qualified request type, as `syn` prints it, is recognised
      whatever follows it. */
  lemma QualifiedRequestRecognised(rest: string)
    ensures IsRequestType(":: submillisecond :: Request" + rest)
  {
    SpacedQualifiedPath();
    RecognisedWhateverFollows(":: submillisecond :: Request", rest, 0);
  }
}

/** How the request test treats particular printed types. */
module RequestTypeExamples {
  import opened RequestTypes

  /** The test is on a prefix, not on equality: any name that merely begins
      with `Request`, such as `RequestFoo`, is taken for the request. */
  lemma PrefixNotEquality(suffix: string)
    ensures IsRequestType("Request" + suffix)
  {
    var name := "Request";
    RemoveSpacesNoSpaces(name);
    assert name == RequestTypePaths[2];
    RecognisedWhateverFollows(name, suffix, 2);
  }

  /** No reference type, `& Request` included, is the request type. */
  lemma ReferenceNotRequest(rest: string)
    ensures !IsRequestType("&" + rest)
  {
    var amp := "&";
    RemoveSpacesNoSpaces(amp);
    RemoveSpacesAppend(amp, rest);
    var t := RemoveSpaces(amp + rest);
    assert t == amp + RemoveSpaces(rest);
    assert t[0] == '&';
    forall i | 0 <= i < |RequestTypePaths| ensures !StartsWith(t, RequestTypePaths[i]) {
      assert RequestTypePaths[i][0] != '&';
    }
  }
}
