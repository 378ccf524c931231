/** Header validation and the filter of request headers (codec.cpp: validate_headers, filter_request_headers; section
    7.6.1 of RFC 9110: a Connection header nominates further names that must not be passed on). */
module Headers {
  import opened Wrappers
  import opened Context
  import opened Limits
  import Utf8

  const MAX_HEADER_BYTES: nat := 32768
  const MAX_NAME: nat := 128
  const MAX_VALUE: nat := 8192

  datatype Header = Header(name: string, value: string)

  function Size(h: Header): nat {
    |h.name| + |h.value|
  }

  function TotalBytes(headers: seq<Header>): nat {
    if headers == [] then 0 else TotalBytes(headers[..|headers| - 1]) + Size(headers[|headers| - 1])
  }

  predicate NameText(name: string) {
    name != "" && forall i :: 0 <= i < |name| ==> Token(name[i]) && !UpperAlpha(name[i])
  }

  predicate ValueText(value: string) {
    Utf8.Valid(value)
    && forall i :: 0 <= i < |value| ==> (value[i] as int >= 0x20 || value[i] == '\t') && value[i] as int != 0x7F
  }

  predicate HeaderOk(h: Header) {
    NameText(h.name) && |h.name| <= MAX_NAME && |h.value| <= MAX_VALUE && ValueText(h.value)
  }

  predicate ValidHeaders(headers: seq<Header>) {
    && |headers| <= MAX_HEADER_PAIRS && TotalBytes(headers) <= MAX_HEADER_BYTES
    && forall i :: 0 <= i < |headers| ==> HeaderOk(headers[i])
  }

  lemma {:induction false} PrefixBytes(headers: seq<Header>, i: nat)
    requires i <= |headers|
    ensures TotalBytes(headers[..i]) <= TotalBytes(headers)
  {
    if i == |headers| {
      assert headers[..i] == headers;
    } else {
      PrefixBytes(headers[..|headers| - 1], i);
      assert headers[..|headers| - 1][..i] == headers[..i];
    }
  }

  /** What is wrong with header `i`, given that the ones before it are fine. */
  function FaultAt(headers: seq<Header>, i: nat): Option<CodecError>
    requires i < |headers|
  {
    if !NameText(headers[i].name) then Some(Invalid)
    else if |headers[i].name| > MAX_NAME || |headers[i].value| > MAX_VALUE then Some(TooLarge)
    else if !ValueText(headers[i].value) then Some(Invalid)
    else if TotalBytes(headers[..i + 1]) > MAX_HEADER_BYTES then Some(TooLarge)
    else None
  }

  /** The error of a refused list: too many pairs, or the fault of the first faulty one. */
  predicate FirstFault(headers: seq<Header>, error: CodecError) {
    if |headers| > MAX_HEADER_PAIRS then error == TooLarge
    else exists i :: 0 <= i < |headers| && FaultAt(headers, i) == Some(error)
                     && forall k :: 0 <= k < i ==> FaultAt(headers, k).None?
  }

  method ValidateHeaders(headers: seq<Header>) returns (r: Result<(), CodecError>)
    ensures r.Ok? <==> ValidHeaders(headers)
    ensures r.Err? ==> FirstFault(headers, r.error)
  {
    hide NameText, ValueText;
    if |headers| > MAX_HEADER_PAIRS {
      return Err(TooLarge);
    }
    var total := 0;
    for i := 0 to |headers|
      invariant total == TotalBytes(headers[..i]) <= MAX_HEADER_BYTES
      invariant forall k :: 0 <= k < i ==> HeaderOk(headers[k]) && FaultAt(headers, k).None?
    {
      var h := headers[i];
      assert headers[..i + 1][..i] == headers[..i];
      if !NameText(h.name) {
        assert FaultAt(headers, i) == Some(Invalid);
        return Err(Invalid);
      }
      if |h.name| > MAX_NAME || |h.value| > MAX_VALUE {
        assert FaultAt(headers, i) == Some(TooLarge);
        return Err(TooLarge);
      }
      if !ValueText(h.value) {
        assert FaultAt(headers, i) == Some(Invalid);
        return Err(Invalid);
      }
      if Size(h) > MAX_HEADER_BYTES - total {
        PrefixBytes(headers, i + 1);
        assert FaultAt(headers, i) == Some(TooLarge);
        return Err(TooLarge);
      }
      total := total + Size(h);
      assert FaultAt(headers, i).None?;
    }
    assert headers[..|headers|] == headers;
    r := Ok(());
  }

  // ----- names that are not passed on -----

  predicate HopHeader(name: string) {
    name in {"connection", "keep-alive", "proxy-connection", "proxy-authenticate", "proxy-authorization", "te",
             "trailer",
             "transfer-encoding", "upgrade"}
  }

  predicate RequestForbidden(name: string) {
    HopHeader(name) || name in {"cookie", "authorization", "x-plinth-csrf", "host", "forwarded"}
        || "x-forwarded-" <= name
  }

  predicate ResponseForbidden(name: string) {
    HopHeader(name)
    || name in {"set-cookie", "cookie", "authorization", "www-authenticate", "authentication-info",
                "proxy-authentication-info", "content-length"}
    || "access-control-" <= name
  }

  // ----- the Connection header's list -----

  function Comma(value: string, from: nat): (end: nat)
    requires from <= |value|
    ensures from <= end <= |value| && (forall i :: from <= i < end ==> value[i] != ',')
              && (end < |value| ==> value[end] == ',')
    decreases |value| - from
  {
    if from == |value| || value[from] == ',' then from else Comma(value, from + 1)
  }

  predicate Blank(c: char) {
    c == ' ' || c == '\t'
  }

  function TrimLeft(item: string): string {
    if item != "" && Blank(item[0]) then TrimLeft(item[1..]) else item
  }

  function TrimRight(item: string): string {
    if item != "" && Blank(item[|item| - 1]) then TrimRight(item[..|item| - 1]) else item
  }

  predicate ItemOk(item: string) {
    0 < |item| <= MAX_NAME && forall i :: 0 <= i < |item| ==> Token(item[i])
  }

  function Lower(item: string): (r: string)
    ensures |r| == |item|
  {
    if item == "" then ""
    else
      var c := item[|item| - 1];
      Lower(item[..|item| - 1]) + [if UpperAlpha(c) then (c as int - 'A' as int + 'a' as int) as char else c]
  }

  /** The names nominated by the list from position `from` on, or None when some item is not a name. */
  function Nominations(value: string, from: nat): Option<set<string>>
    requires from <= |value|
    decreases |value| - from
  {
    var end := Comma(value, from);
    var item := TrimRight(TrimLeft(value[from..end]));
    if !ItemOk(item) then None
    else if end == |value| then Some({Lower(item)})
    else
      var rest := Nominations(value, end + 1);
      if rest.None? then None else Some({Lower(item)} + rest.value)
  }

  /** All nominations of the first `i` headers. */
  function Nominated(headers: seq<Header>, i: nat): Option<set<string>>
    requires i <= |headers|
  {
    if i == 0 then Some({})
    else
      var before := Nominated(headers, i - 1);
      if before.None? || headers[i - 1].name != "connection" then before
      else
        var these := Nominations(headers[i - 1].value, 0);
        if these.None? then None else Some(before.value + these.value)
  }

  predicate Dropped(h: Header, nominated: set<string>) {
    RequestForbidden(h.name) || h.name in nominated
  }

  function Kept(headers: seq<Header>, nominated: set<string>): seq<Header> {
    if headers == [] then []
    else
      Kept(headers[..|headers| - 1], nominated)
      + if Dropped(headers[|headers| - 1], nominated) then [] else [headers[|headers| - 1]]
  }

  /** The filter: None when the headers or a Connection list are malformed. */
  function Filtered(headers: seq<Header>): Option<seq<Header>> {
    if !ValidHeaders(headers) || Nominated(headers, |headers|).None? then None
    else Some(Kept(headers, Nominated(headers, |headers|).value))
  }

  /** `part` is `whole` with some entries left out. */
  predicate Subsequence(part: seq<Header>, whole: seq<Header>)
    decreases |whole|
  {
    if whole == [] then part == []
    else
      || Subsequence(part, whole[..|whole| - 1])
      || (part != [] && part[|part| - 1] == whole[|whole| - 1] && Subsequence(part[..|part| - 1], whole[..|whole| - 1]))
  }

  lemma {:induction false} KeptIsSubsequence(headers: seq<Header>, nominated: set<string>)
    ensures Subsequence(Kept(headers, nominated), headers)
  {
    hide Dropped;
    if headers != [] {
      var n := |headers| - 1;
      KeptIsSubsequence(headers[..n], nominated);
      var rest := Kept(headers[..n], nominated);
      assert rest + [] == rest;
      if !Dropped(headers[n], nominated) {
        LastKept(rest, headers);
      }
    }
  }

  lemma LastKept(rest: seq<Header>, headers: seq<Header>)
    requires headers != [] && Subsequence(rest, headers[..|headers| - 1])
    ensures Subsequence(rest + [headers[|headers| - 1]], headers)
  {
    var part := rest + [headers[|headers| - 1]];
    assert part[..|part| - 1] == rest;
  }

  lemma {:induction false} KeptHeaders(headers: seq<Header>, nominated: set<string>)
    ensures |Kept(headers, nominated)| <= |headers| && TotalBytes(Kept(headers, nominated)) <= TotalBytes(headers)
    ensures forall h :: h in Kept(headers, nominated) <==> h in headers && !Dropped(h, nominated)
  {
    hide Dropped;
    if headers != [] {
      var n := |headers| - 1;
      KeptHeaders(headers[..n], nominated);
      var rest := Kept(headers[..n], nominated);
      assert headers == headers[..n] + [headers[n]];
      assert rest + [] == rest == (rest + [headers[n]])[..|rest|];
    }
  }

  lemma {:induction false} NothingNominated(headers: seq<Header>, i: nat)
    requires i <= |headers| && forall h :: h in headers ==> h.name != "connection"
    ensures Nominated(headers, i) == Some({})
  {
    if i > 0 {
      NothingNominated(headers, i - 1);
      assert headers[i - 1] in headers;
    }
  }

  lemma {:induction false} NothingDropped(headers: seq<Header>, nominated: set<string>)
    requires forall h :: h in headers ==> !Dropped(h, nominated)
    ensures Kept(headers, nominated) == headers
  {
    hide RequestForbidden;
    if headers != [] {
      var n := |headers| - 1;
      assert headers == headers[..n] + [headers[n]];
      NothingDropped(headers[..n], nominated);
      assert headers[n] in headers;
    }
  }

  /** What the filter promises: the order and repetitions of what is left are the original's, no forbidden or nominated
      name is left and nothing else is missing, and filtering again changes nothing. */
  lemma FilterIsIdempotent(headers: seq<Header>)
    requires Filtered(headers).Some?
    ensures var r := Filtered(headers).value;
            && Subsequence(r, headers) && ValidHeaders(r) && Filtered(r) == Some(r)
            && (forall h :: h in r <==> h in headers && !RequestForbidden(h.name)
                                        && h.name !in Nominated(headers, |headers|).value)
  {
    hide Subsequence, ValidHeaders, RequestForbidden, Kept, Nominations;
    var nominated := Nominated(headers, |headers|).value;
    var r := Kept(headers, nominated);
    KeptIsSubsequence(headers, nominated);
    KeptHeaders(headers, nominated);
    KeptValid(headers, nominated);
    ConnectionForbidden();
    NothingNominated(r, |r|);
    NothingDropped(r, {});
  }

  lemma ConnectionForbidden()
    ensures RequestForbidden("connection")
  {
  }

  lemma KeptValid(headers: seq<Header>, nominated: set<string>)
    requires ValidHeaders(headers)
    ensures ValidHeaders(Kept(headers, nominated))
  {
    hide HeaderOk, Dropped, TotalBytes;
    KeptHeaders(headers, nominated);
    var r := Kept(headers, nominated);
    forall i | 0 <= i < |r|
      ensures HeaderOk(r[i])
    {
      assert r[i] in r;
      var k :| 0 <= k < |headers| && headers[k] == r[i];
    }
  }

  /** The comma-separated names of one Connection header. */
  method CollectNominations(value: string) returns (names: Option<set<string>>)
    ensures names == Nominations(value, 0)
  {
    hide TrimLeft, TrimRight, ItemOk, Lower;
    ghost var all := Nominations(value, 0);
    var found: set<string> := {};
    var start := 0;
    while true
      invariant start <= |value|
      invariant all.Some? <==> Nominations(value, start).Some?
      invariant all.Some? ==> all.value == found + Nominations(value, start).value
      decreases |value| - start
    {
      var end := Comma(value, start);
      var item := TrimRight(TrimLeft(value[start..end]));
      if !ItemOk(item) {
        return None;
      }
      found := found + {Lower(item)};
      if end == |value| {
        return Some(found);
      }
      start := end + 1;
    }
  }

  /** One malformed list spoils the whole request. */
  lemma {:induction false} NoneAfter(headers: seq<Header>, i: nat)
    requires i <= |headers| && Nominated(headers, i).None?
    ensures Nominated(headers, |headers|).None?
    decreases |headers| - i
  {
    if i < |headers| {
      NoneAfter(headers, i + 1);
    }
  }

  method FilterRequestHeaders(headers: seq<Header>) returns (r: Result<seq<Header>, CodecError>)
    ensures r.Ok? <==> Filtered(headers).Some?
    ensures r.Ok? ==> r.value == Filtered(headers).value
    ensures r.Err? ==> if ValidHeaders(headers) then r.error == Invalid else FirstFault(headers, r.error)
  {
    hide RequestForbidden, ValidHeaders, Nominations;
    var valid := ValidateHeaders(headers);
    if valid.Err? {
      return Err(valid.error);
    }
    var nominated: set<string> := {};
    for i := 0 to |headers|
      invariant Nominated(headers, i) == Some(nominated)
    {
      if headers[i].name == "connection" {
        var names := CollectNominations(headers[i].value);
        if names.None? {
          NoneAfter(headers, i + 1);
          return Err(Invalid);
        }
        nominated := nominated + names.value;
      }
    }
    var kept: seq<Header> := [];
    for i := 0 to |headers|
      invariant kept == Kept(headers[..i], nominated)
    {
      assert headers[..i + 1][..i] == headers[..i];
      if !RequestForbidden(headers[i].name) && headers[i].name !in nominated {
        kept := kept + [headers[i]];
      }
    }
    assert headers[..|headers|] == headers;
    r := Ok(kept);
  }
}
