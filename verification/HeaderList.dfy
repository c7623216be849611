/** Roles and permissions on their way through a header: the gateway joins them with commas, and the
    services split the header again. */
module HeaderList {
  import opened Common
  import opened Text

  /** The gateway sets the header only for a non-empty list. */
  function Header(list: seq<string>): Option<string> {
    if |list| != 0 then Some(Join(list, ',')) else None
  }

  /** A missing header reads as the empty string. */
  function HeaderValue(h: Option<string>): string {
    match h case None => "" case Some(v) => v
  }

  /** The trimmed non-empty elements among the first `n`, in order. */
  function CleanTo(parts: seq<string>, n: nat): seq<string>
    requires n <= |parts|
  {
    if n == 0 then []
    else
      var p := TrimSpace(parts[n - 1]);
      CleanTo(parts, n - 1) + if p == "" then [] else [p]
  }

  function Clean(parts: seq<string>): seq<string> {
    CleanTo(parts, |parts|)
  }

  predicate IsClean(list: seq<string>) {
    forall i :: 0 <= i < |list| ==> list[i] != "" && Trimmed(list[i])
  }

  /** `splitCSV`; both of its nil results are the empty list. */
  method SplitCSV(v: string) returns (out: seq<string>)
    ensures out == Clean(Split(v, ','))
  {
    var t := TrimSpace(v);
    OuterTrimIsRedundant(v);
    if t == "" {
      return [];
    }
    var parts := Split(t, ',');
    out := [];
    for i := 0 to |parts|
      invariant out == CleanTo(parts, i)
    {
      var p := TrimSpace(parts[i]);
      if p != "" {
        out := out + [p];
      }
    }
  }

  // ----- The outer trim -----

  lemma {:induction false} CleanAlike(p: seq<string>, q: seq<string>, n: nat)
    requires n <= |p| == |q| && forall i :: 0 <= i < |p| ==> TrimSpace(p[i]) == TrimSpace(q[i])
    ensures CleanTo(p, n) == CleanTo(q, n)
  {
    if n > 0 { CleanAlike(p, q, n - 1); }
  }

  lemma {:induction false} TrimLeftKeepsParts(s: string)
    ensures Clean(Split(TrimLeft(s), ',')) == Clean(Split(s, ','))
  {
    if s != "" && IsSpace(s[0]) {
      TrimLeftKeepsParts(s[1..]);
      var p, q := Split(s, ','), Split(s[1..], ',');
      TrimSpaceIgnoresEnds(q[0], s[0]);
      CleanAlike(p, q, |p|);
    }
  }

  lemma {:induction false} ExtendKeepsParts(q: seq<string>, c: char)
    requires q != [] && IsSpace(c)
    ensures Clean(Extend(q, c)) == Clean(q)
  {
    TrimSpaceIgnoresEnds(q[|q| - 1], c);
    CleanAlike(Extend(q, c), q, |q|);
  }

  lemma {:induction false} TrimRightKeepsParts(s: string)
    ensures Clean(Split(TrimRight(s), ',')) == Clean(Split(s, ','))
  {
    if s != "" && IsSpace(s[|s| - 1]) {
      var t, c := s[..|s| - 1], s[|s| - 1];
      TrimRightKeepsParts(t);
      assert s == t + [c];
      SplitSnoc(t, c, ',');
      ExtendKeepsParts(Split(t, ','), c);
    }
  }

  /** Trimming the whole value first changes nothing, and a blank value has no elements. */
  lemma {:induction false} OuterTrimIsRedundant(v: string)
    ensures Clean(Split(TrimSpace(v), ',')) == Clean(Split(v, ','))
    ensures TrimSpace(v) == "" ==> Clean(Split(v, ',')) == []
  {
    TrimLeftKeepsParts(v);
    TrimRightKeepsParts(TrimLeft(v));
    assert CleanTo([""], 1) == [];
  }

  // ----- What cleaning keeps -----

  lemma {:induction false} CleanIsClean(parts: seq<string>, n: nat)
    requires n <= |parts|
    ensures IsClean(CleanTo(parts, n))
  {
    if n > 0 {
      CleanIsClean(parts, n - 1);
      TrimSpaceIsTrimmed(parts[n - 1]);
    }
  }

  lemma {:induction false} CleanOfClean(list: seq<string>, n: nat)
    requires n <= |list| && IsClean(list)
    ensures CleanTo(list, n) == list[..n]
  {
    if n > 0 {
      CleanOfClean(list, n - 1);
      TrimSpaceIsTrimmed(list[n - 1]);
    }
  }

  lemma {:induction false} TrimSpaceKeepsOut(s: string, c: char)
    requires c !in s
    ensures c !in TrimSpace(s)
  {
    TrimLeftKeepsOut(s, c);
    TrimRightEnds(TrimLeft(s));
  }

  lemma {:induction false} TrimLeftKeepsOut(s: string, c: char)
    requires c !in s
    ensures c !in TrimLeft(s)
  {
    if s != "" && IsSpace(s[0]) { TrimLeftKeepsOut(s[1..], c); }
  }

  lemma {:induction false} CleanHasNoComma(parts: seq<string>, n: nat)
    requires n <= |parts| && forall i :: 0 <= i < |parts| ==> ',' !in parts[i]
    ensures forall k :: 0 <= k < |CleanTo(parts, n)| ==> ',' !in CleanTo(parts, n)[k]
  {
    if n > 0 {
      CleanHasNoComma(parts, n - 1);
      TrimSpaceKeepsOut(parts[n - 1], ',');
    }
  }

  // ----- Main results -----

  predicate CommaFree(list: seq<string>) {
    forall i :: 0 <= i < |list| ==> ',' !in list[i]
  }

  /** Every list, commas or not: what arrives is each element split at its own commas, trimmed, with the
      blanks dropped. */
  lemma {:induction false} HeaderCarries(list: seq<string>)
    ensures Clean(Split(HeaderValue(Header(list)), ',')) == Clean(SplitEach(list, ','))
  {
    if list == [] {
      assert CleanTo([""], 1) == [];
    } else {
      SplitJoin(list, ',');
    }
  }

  /** Comma-free lists arrive trimmed, without their blanks, in order. */
  lemma {:induction false} HeaderRoundTrip(list: seq<string>)
    requires CommaFree(list)
    ensures Clean(Split(HeaderValue(Header(list)), ',')) == Clean(list)
  {
    HeaderCarries(list);
    SplitEachClean(list, ',');
  }

  /** A list arrives unchanged exactly if its elements are comma-free, trimmed and not empty. */
  lemma {:induction false} HeaderIdentityIff(list: seq<string>)
    ensures Clean(Split(HeaderValue(Header(list)), ',')) == list <==> CommaFree(list) && IsClean(list)
  {
    var parts := Split(HeaderValue(Header(list)), ',');
    if Clean(parts) == list {
      CleanIsClean(parts, |parts|);
      forall i | 0 <= i < |parts|
        ensures ',' !in parts[i]
      {
        SplitParts(HeaderValue(Header(list)), ',', i);
      }
      CleanHasNoComma(parts, |parts|);
    }
    if CommaFree(list) && IsClean(list) {
      HeaderRoundTrip(list);
      CleanOfClean(list, |list|);
    }
  }
}
