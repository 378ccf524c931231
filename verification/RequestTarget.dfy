/** Request paths and route claims (codec.cpp: path_segments, matches, valid_claim, validate_target;
    sections 2.1, 2.3 and 3.3 of RFC 3986). */
module RequestTarget {
  import opened Wrappers
  import opened Escapes
  import Utf8

  const MAX_TARGET_BYTES: nat := 8192

  predicate Unreserved(c: char) {
    'a' <= c <= 'z' || 'A' <= c <= 'Z' || '0' <= c <= '9' || c == '-' || c == '.' || c == '_' || c == '~'
  }

  // ----- segments -----

  /** The segments of a text between its slashes. */
  function Split(s: string): (parts: seq<string>)
    ensures |parts| > 0
  {
    if |s| == 0 then [""]
    else
      var rest := Split(s[1..]);
      if s[0] == '/' then [""] + rest else [[s[0]] + rest[0]] + rest[1..]
  }

  predicate NoSlash(s: string) {
    forall i :: 0 <= i < |s| ==> s[i] != '/'
  }

  lemma {:induction false} SplitNoSlash(s: string)
    requires NoSlash(s)
    ensures Split(s) == [s]
  {
    if |s| > 0 {
      SplitNoSlash(s[1..]);
      assert [s[0]] + s[1..] == s;
    }
  }

  lemma {:induction false} SplitAtSlash(s: string, i: nat)
    requires i < |s| && s[i] == '/' && NoSlash(s[..i])
    ensures Split(s) == [s[..i]] + Split(s[i + 1..])
  {
    if i > 0 {
      assert s[0] == s[..i][0];
      assert s[1..][..i - 1] == s[..i][1..];
      SplitAtSlash(s[1..], i - 1);
      assert [s[0]] + s[1..i] == s[..i] && s[1..][i..] == s[i + 1..];
    } else {
      assert s[..0] == "";
    }
  }

  /** One list of segments begins another exactly when the text does, up to a slash. */
  lemma {:induction false} SplitPrefix(a: string, b: string)
    ensures Split(a) <= Split(b) <==> b == a || (|b| > |a| && b[..|a|] == a && b[|a|] == '/')
  {
    hide Split;
    if |a| == 0 || |b| == 0 {
      SplitPrefixBase(a, b);
    } else {
      SplitPrefix(a[1..], b[1..]);
      SplitPrefixStep(a, b);
      Heads(a, b);
    }
  }

  lemma SplitPrefixBase(a: string, b: string)
    requires |a| == 0 || |b| == 0
    ensures Split(a) <= Split(b) <==> b == a || (|b| > |a| && b[..|a|] == a && b[|a|] == '/')
  {
    if |b| > 0 && b[0] != '/' {
      assert Split(b)[0][0] == b[0];
    }
    if |a| > 0 {
      if a[0] == '/' {
        assert |Split(a)| > 1;
      } else {
        assert Split(a)[0][0] == a[0];
      }
    }
  }

  lemma ConsPrefix<T>(p: T, x: seq<T>, q: T, y: seq<T>)
    ensures [p] + x <= [q] + y <==> p == q && x <= y
  {
    if [p] + x <= [q] + y {
      assert ([p] + x)[0] == ([q] + y)[0];
      assert ([p] + x)[1..] == x && ([q] + y)[1..] == y;
    }
  }

  lemma SplitPrefixStep(a: string, b: string)
    requires |a| > 0 && |b| > 0
    ensures Split(a) <= Split(b) <==> a[0] == b[0] && Split(a[1..]) <= Split(b[1..])
  {
    var x, y := Split(a[1..]), Split(b[1..]);
    var p := if a[0] == '/' then "" else [a[0]] + x[0];
    var q := if b[0] == '/' then "" else [b[0]] + y[0];
    ConsPrefix(p, if a[0] == '/' then x else x[1..], q, if b[0] == '/' then y else y[1..]);
    if a[0] != '/' && b[0] != '/' {
      assert p[0] == a[0] && q[0] == b[0] && p[1..] == x[0] && q[1..] == y[0];
      assert x == [x[0]] + x[1..] && y == [y[0]] + y[1..];
      ConsPrefix(x[0], x[1..], y[0], y[1..]);
    }
  }

  lemma Heads(a: string, b: string)
    requires |a| > 0 && |b| > 0
    ensures b == a <==> a[0] == b[0] && b[1..] == a[1..]
    ensures |b| > |a| ==> (b[..|a|] == a <==> a[0] == b[0] && b[1..][..|a| - 1] == a[1..])
    ensures |b| > |a| ==> b[|a|] == b[1..][|a| - 1]
  {
    assert a == [a[0]] + a[1..] && b == [b[0]] + b[1..];
    if |b| > |a| {
      assert b[..|a|] == [b[0]] + b[1..][..|a| - 1];
    }
  }

  lemma SplitInjective(a: string, b: string)
    requires Split(a) == Split(b)
    ensures a == b
  {
    SplitPrefix(a, b);
    SplitPrefix(b, a);
  }

  function Segments(path: string): seq<string>
    requires |path| > 0
  {
    Split(path[1..])
  }

  predicate Dot(part: string) {
    part == "." || part == ".."
  }

  /** No dot segment, and an empty segment only at the end. */
  predicate GoodSegments(parts: seq<string>) {
    forall k :: 0 <= k < |parts| ==> !Dot(parts[k]) && (k < |parts| - 1 ==> parts[k] != "")
  }

  predicate GoodPath(path: string) {
    |path| > 0 && path[0] == '/' && GoodSegments(Segments(path))
  }

  lemma GoodCons(part: string, parts: seq<string>)
    requires |parts| > 0
    ensures GoodSegments([part] + parts) <==> part != "" && !Dot(part) && GoodSegments(parts)
  {
    var all := [part] + parts;
    assert all[0] == part && all[1..] == parts;
    if GoodSegments(all) {
      forall k | 0 <= k < |parts|
        ensures !Dot(parts[k]) && (k < |parts| - 1 ==> parts[k] != "")
      {
        assert parts[k] == all[k + 1];
      }
    }
  }

  /** The position of the next slash, or the length of the text. */
  method FindSlash(path: string, start: nat) returns (end: nat)
    requires start <= |path|
    ensures start <= end <= |path| && (end < |path| ==> path[end] == '/')
    ensures forall k :: start <= k < end ==> path[k] != '/'
  {
    end := start;
    while end < |path| && path[end] != '/'
      invariant start <= end <= |path| && forall k :: start <= k < end ==> path[k] != '/'
    {
      end := end + 1;
    }
  }

  method PathSegments(path: string) returns (ok: bool)
    ensures ok <==> GoodPath(path)
  {
    hide Split, GoodSegments, Dot;
    if |path| == 0 || path[0] != '/' {
      return false;
    }
    if path == "/" {
      EmptyTailGood(path[1..]);
      return true;
    }
    var start := 1;
    while start < |path|
      invariant 1 <= start <= |path| + 1
      invariant start <= |path| ==> (GoodPath(path) <==> GoodSegments(Split(path[start..])))
      invariant start == |path| + 1 ==> GoodPath(path)
    {
      var end := FindSlash(path, start);
      var part := path[start..end];
      assert path[start..][..end - start] == part;
      TailGood(path[start..], end - start);
      DotMeans(part);
      if part == "" || part == "." || part == ".." {
        return false;
      }
      assert end < |path| ==> path[start..][end - start + 1..] == path[end + 1..];
      start := end + 1;
    }
    if start == |path| {
      EmptyTailGood(path[start..]);
    }
    return true;
  }

  lemma EmptyTailGood(tail: string)
    requires tail == ""
    ensures GoodSegments(Split(tail))
  {
  }

  lemma DotMeans(part: string)
    ensures Dot(part) <==> part == "." || part == ".."
  {
  }

  lemma TailGood(tail: string, end: nat)
    requires end <= |tail| && NoSlash(tail[..end]) && (end < |tail| ==> tail[end] == '/') && |tail| > 0
    ensures end < |tail| ==> (GoodSegments(Split(tail)) <==> tail[..end] != "" && !Dot(tail[..end])
                                                             && GoodSegments(Split(tail[end + 1..])))
    ensures end == |tail| ==> tail[..end] != "" && (GoodSegments(Split(tail)) <==> !Dot(tail[..end]))
  {
    if end < |tail| {
      SplitAtSlash(tail, end);
      GoodCons(tail[..end], Split(tail[end + 1..]));
    } else {
      assert tail[..end] == tail;
      SplitNoSlash(tail);
      assert Split(tail)[0] == tail;
    }
  }

  // ----- claims -----

  predicate Wildcard(claim: string) {
    |claim| >= 2 && claim[|claim| - 2..] == "/*"
  }

  function Stem(claim: string): string {
    if Wildcard(claim) then claim[..|claim| - 2] else claim
  }

  predicate ValidClaim(claim: string) {
    var t := Stem(claim);
    && |claim| <= 256 && |t| > 1 && t[0] == '/' && t[|t| - 1] != '/' && GoodPath(t)
    && forall i :: 0 <= i < |t| ==> t[i] == '/' || Unreserved(t[i])
  }

  predicate Matches(claim: string, path: string) {
    if !Wildcard(claim) then claim == path
    else
      var t := Stem(claim);
      path == t || (|path| >= |t| && path[..|t|] == t && |path| > |t| && path[|t|] == '/')
  }

  /** The string test decides segment equality for an exact claim and segment prefix for a wildcard one. */
  lemma MatchesSegments(claim: string, path: string)
    requires ValidClaim(claim) && |path| > 0 && path[0] == '/'
    ensures Matches(claim, path) <==>
            if Wildcard(claim) then Segments(Stem(claim)) <= Segments(path) else Segments(claim) == Segments(path)
  {
    hide Split, GoodPath, Unreserved;
    var t := Stem(claim);
    Heads(t, path);
    if Wildcard(claim) {
      SplitPrefix(t[1..], path[1..]);
    } else if Segments(claim) == Segments(path) {
      SplitInjective(claim[1..], path[1..]);
    }
  }

  // ----- percent decoding -----

  /** Plain percent decoding of section 2.1. */
  function PercentDecode(s: string): Option<string> {
    if |s| == 0 then Some("")
    else if s[0] == '%' then
      if |s| < 3 || HexValue(s[1]).None? || HexValue(s[2]).None? then None
      else
        var rest := PercentDecode(s[3..]);
        if rest.None? then None else Some([Escaped(s)] + rest.value)
    else
      var rest := PercentDecode(s[1..]);
      if rest.None? then None else Some([s[0]] + rest.value)
  }

  function Escaped(s: string): char
    requires |s| >= 3 && HexValue(s[1]).Some? && HexValue(s[2]).Some?
  {
    (HexValue(s[1]).value * 16 + HexValue(s[2]).value) as char
  }

  predicate RawForbidden(c: char) {
    c as int <= 0x20 || c as int == 0x7F || c == '\\' || c == '#' || c == '?'
  }

  predicate EscapeForbidden(c: char) {
    c == '/' || c == '\\' || Unreserved(c)
  }

  /** The spellings the validator admits: no raw control, space, backslash, hash or question mark, and no escape that
      hides a slash or a backslash or that spells an unreserved character. */
  predicate Canonical(s: string) {
    if |s| == 0 then true
    else
      && !RawForbidden(s[0])
      && if s[0] == '%'
         then && |s| >= 3 && HexValue(s[1]).Some? && HexValue(s[2]).Some?
              && !EscapeForbidden(Escaped(s)) && Canonical(s[3..])
         else Canonical(s[1..])
  }

  predicate QueryOk(s: string) {
    if |s| == 0 then true
    else
      && 0x21 <= s[0] as int <= 0x7E && s[0] != '#'
      && if s[0] == '%' then |s| >= 3 && HexValue(s[1]).Some? && HexValue(s[2]).Some? && QueryOk(s[3..])
         else QueryOk(s[1..])
  }

  predicate PathCharacters(path: string) {
    forall i :: 0 <= i < |path| ==>
      path[i] as int >= 0x20 && path[i] as int != 0x7F && path[i] != '\\' && path[i] != '#'
  }

  ghost predicate Accepts(original: string, path: string, query: string) {
    && Utf8.WellFormed(original) && Utf8.WellFormed(path) && GoodPath(path) && PathCharacters(path)
    && Canonical(original) && PercentDecode(original) == Some(path)
    && QueryOk(query)
  }

  /** Splitting on slashes commutes with decoding, segment by segment, for every accepted spelling. */
  lemma {:induction false} DecodeSegments(original: string)
    requires Canonical(original)
    ensures PercentDecode(original).Some?
    ensures var path := PercentDecode(original).value;
            && |Split(path)| == |Split(original)|
            && forall k :: 0 <= k < |Split(path)| ==> PercentDecode(Split(original)[k]) == Some(Split(path)[k])
  {
    if |original| > 0 {
      var n := if original[0] == '%' then 3 else 1;
      DecodeSegments(original[n..]);
      if original[0] == '%' {
        EscapeSegments(original);
      } else {
        RawSegments(original);
      }
    }
  }

  lemma RawSegments(o: string)
    requires |o| > 0 && Canonical(o) && o[0] != '%' && PercentDecode(o[1..]).Some?
    requires var rest := PercentDecode(o[1..]).value;
             && |Split(rest)| == |Split(o[1..])|
             && forall k :: 0 <= k < |Split(rest)| ==> PercentDecode(Split(o[1..])[k]) == Some(Split(rest)[k])
    ensures var path := [o[0]] + PercentDecode(o[1..]).value;
            && PercentDecode(o) == Some(path) && |Split(path)| == |Split(o)|
            && forall k :: 0 <= k < |Split(path)| ==> PercentDecode(Split(o)[k]) == Some(Split(path)[k])
  {
    var rest := PercentDecode(o[1..]).value;
    var path := [o[0]] + rest;
    assert path[1..] == rest;
    var x, y := Split(o[1..]), Split(rest);
    if o[0] == '/' {
      assert Split(o) == [""] + x && Split(path) == [""] + y;
    } else {
      var p := [o[0]] + x[0];
      assert p[1..] == x[0];
      assert Split(o) == [p] + x[1..] && Split(path) == [[o[0]] + y[0]] + y[1..];
      assert PercentDecode(p) == Some([o[0]] + y[0]);
    }
  }

  lemma EscapeSegments(o: string)
    requires |o| > 0 && Canonical(o) && o[0] == '%' && PercentDecode(o[3..]).Some?
    requires var rest := PercentDecode(o[3..]).value;
             && |Split(rest)| == |Split(o[3..])|
             && forall k :: 0 <= k < |Split(rest)| ==> PercentDecode(Split(o[3..])[k]) == Some(Split(rest)[k])
    ensures var path := [Escaped(o)] + PercentDecode(o[3..]).value;
            && PercentDecode(o) == Some(path) && |Split(path)| == |Split(o)|
            && forall k :: 0 <= k < |Split(path)| ==> PercentDecode(Split(o)[k]) == Some(Split(path)[k])
  {
    var rest := PercentDecode(o[3..]).value;
    var path := [Escaped(o)] + rest;
    assert path[1..] == rest;
    var x, y := Split(o[3..]), Split(rest);
    EscapeSplit(o);
    var p := [o[0], o[1], o[2]] + x[0];
    assert p[3..] == x[0] && Escaped(p) == Escaped(o);
    assert PercentDecode(p) == Some([Escaped(o)] + y[0]);
    assert Split(path) == [[Escaped(o)] + y[0]] + y[1..];
  }

  lemma SplitChar(o: string)
    requires o != "" && o[0] != '/'
    ensures Split(o) == [[o[0]] + Split(o[1..])[0]] + Split(o[1..])[1..]
    ensures Split(o)[0] == [o[0]] + Split(o[1..])[0] && Split(o)[1..] == Split(o[1..])[1..]
  {
  }

  lemma HexIsNoSlash(c: char)
    requires HexValue(c).Some?
    ensures c != '/'
  {
  }

  lemma EscapeSplit(o: string)
    requires |o| >= 3 && o[0] == '%' && HexValue(o[1]).Some? && HexValue(o[2]).Some?
    ensures Split(o) == [[o[0], o[1], o[2]] + Split(o[3..])[0]] + Split(o[3..])[1..]
  {
    hide Split, HexValue;
    HexIsNoSlash(o[1]);
    HexIsNoSlash(o[2]);
    assert o[2..][1..] == o[3..] && o[1..][1..] == o[2..];
    SplitChar(o);
    SplitChar(o[1..]);
    SplitChar(o[2..]);
    var x := Split(o[3..])[0];
    assert Split(o)[0] == [o[0]] + ([o[1]] + ([o[2]] + x)) == [o[0], o[1], o[2]] + x;
  }

  /** What an accepted target guarantees about its path, in the path's own segments. */
  lemma AcceptedTarget(original: string, path: string, query: string)
    requires Accepts(original, path, query)
    ensures PercentDecode(original) == Some(path)
    ensures |Split(path)| == |Split(original)|
    ensures forall k :: 0 <= k < |Split(path)| ==> PercentDecode(Split(original)[k]) == Some(Split(path)[k])
    ensures forall k :: 0 <= k < |Segments(path)| ==> Segments(path)[k] != "." && Segments(path)[k] != ".."
    ensures forall k :: 0 <= k < |Segments(path)| - 1 ==> Segments(path)[k] != ""
  {
    hide Split, Canonical, PercentDecode, PathCharacters, QueryOk;
    DecodeSegments(original);
  }

  // ----- the loops of validate_target -----

  method DecodesTo(original: string, path: string) returns (ok: bool)
    ensures ok <==> Canonical(original) && PercentDecode(original) == Some(path)
  {
    hide EscapeForbidden, RawForbidden;
    var decoded, i := 0, 0;
    assert original[0..] == original && path[0..] == path;
    while i < |original|
      invariant 0 <= i <= |original| && 0 <= decoded <= |path|
      invariant Canonical(original) && PercentDecode(original) == Some(path) <==>
                Canonical(original[i..]) && PercentDecode(original[i..]) == Some(path[decoded..])
    {
      ghost var rest, tail := original[i..], path[decoded..];
      var c := original[i];
      var step := 1;
      assert rest[0] == c;
      if RawForbidden(c) {
        return false;
      }
      if c == '%' {
        if |original| - i < 3 || HexValue(original[i + 1]).None? || HexValue(original[i + 2]).None? {
          assert !Canonical(rest);
          return false;
        }
        assert rest[1] == original[i + 1] && rest[2] == original[i + 2];
        c := (HexValue(original[i + 1]).value * 16 + HexValue(original[i + 2]).value) as char;
        if EscapeForbidden(c) {
          return false;
        }
        step := 3;
      }
      assert Canonical(rest) <==> Canonical(rest[step..]);
      assert PercentDecode(rest) == (if PercentDecode(rest[step..]).None? then None
                                     else Some([c] + PercentDecode(rest[step..]).value));
      if decoded == |path| || c != path[decoded] {
        return false;
      }
      decoded := decoded + 1;
      i := i + step;
      assert rest[step..] == original[i..] && tail[1..] == path[decoded..] && tail == [c] + tail[1..];
    }
    ok := decoded == |path|;
  }

  method QueryValid(query: string) returns (ok: bool)
    ensures ok <==> QueryOk(query)
  {
    var i := 0;
    assert query[0..] == query;
    while i < |query|
      invariant 0 <= i <= |query|
      invariant QueryOk(query) <==> QueryOk(query[i..])
    {
      ghost var rest := query[i..];
      var c := query[i] as int;
      assert rest[0] == query[i];
      if c < 0x21 || c > 0x7E || query[i] == '#' {
        return false;
      }
      if query[i] == '%' {
        if |query| - i < 3 || HexValue(query[i + 1]).None? || HexValue(query[i + 2]).None? {
          return false;
        }
        assert rest[3..] == query[i + 3..];
        i := i + 3;
      } else {
        assert rest[1..] == query[i + 1..];
        i := i + 1;
      }
    }
    return true;
  }

  method ValidateTarget(original: string, path: string, query: string) returns (r: Result<(), CodecError>)
    ensures r == (if |original| > MAX_TARGET_BYTES || |path| > MAX_TARGET_BYTES || |query| > MAX_TARGET_BYTES
                  then Err(TooLarge)
                  else if Accepts(original, path, query) then Ok(()) else Err(Invalid))
  {
    hide GoodPath, Canonical, PercentDecode, QueryOk, Utf8.WellFormed;
    if |original| > MAX_TARGET_BYTES || |path| > MAX_TARGET_BYTES || |query| > MAX_TARGET_BYTES {
      return Err(TooLarge);
    }
    var o := Utf8.ValidUtf8(original);
    var p := Utf8.ValidUtf8(path);
    var segments := PathSegments(path);
    if !o || !p || !segments {
      return Err(Invalid);
    }
    for i := 0 to |path|
      invariant forall k :: 0 <= k < i ==>
                  path[k] as int >= 0x20 && path[k] as int != 0x7F && path[k] != '\\' && path[k] != '#'
    {
      var u := path[i] as int;
      if u < 0x20 || u == 0x7F || path[i] == '\\' || path[i] == '#' {
        return Err(Invalid);
      }
    }
    var decodes := DecodesTo(original, path);
    if !decodes {
      return Err(Invalid);
    }
    var q := QueryValid(query);
    return if q then Ok(()) else Err(Invalid);
  }
}
