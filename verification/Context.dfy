/** Closed values of an extension HTTP call (codec.hpp) and their validators (codec.cpp). */
module Context {
  import opened Wrappers
  import opened RequestTarget

  predicate LowerAlpha(c: char) {
    'a' <= c <= 'z'
  }

  predicate UpperAlpha(c: char) {
    'A' <= c <= 'Z'
  }

  predicate Digit(c: char) {
    '0' <= c <= '9'
  }

  predicate LowerHex(c: char) {
    Digit(c) || 'a' <= c <= 'f'
  }

  predicate Token(c: char) {
    LowerAlpha(c) || UpperAlpha(c) || Digit(c) || c in "!#$%&'*+.^_`|~-"
  }

  predicate ValidUuid(text: string) {
    && |text| == 36
    && forall i :: 0 <= i < 36 ==> if i == 8 || i == 13 || i == 18 || i == 23 then text[i] == '-' else LowerHex(text[i])
  }

  predicate ValidHex256(text: string) {
    |text| == 64 && forall i :: 0 <= i < 64 ==> LowerHex(text[i])
  }

  predicate ValidName(text: string) {
    && 2 <= |text| <= 64 && LowerAlpha(text[0])
    && forall i :: 0 <= i < |text| ==> LowerAlpha(text[i]) || Digit(text[i]) || text[i] == '-'
  }

  predicate ValidMethod(text: string) {
    && 1 <= |text| <= 32 && UpperAlpha(text[0])
    && forall i :: 0 <= i < |text| ==> Token(text[i]) && !LowerAlpha(text[i])
  }

  // ----- semantic versions -----

  /** The end of the run of characters satisfying `p` that starts at `pos`. */
  function RunEnd(text: string, pos: nat, p: char -> bool): (end: nat)
    requires pos <= |text|
    ensures pos <= end <= |text|
    decreases |text| - pos
  {
    if pos < |text| && p(text[pos]) then RunEnd(text, pos + 1, p) else pos
  }

  /** Three dotted numbers without leading zeros; the position after them. */
  function CoreEnd(text: string, pos: nat, fields: nat): (end: Option<nat>)
    requires pos <= |text|
    ensures end.Some? ==> end.value <= |text|
    decreases fields
  {
    if fields == 0 then Some(pos)
    else
      var end := RunEnd(text, pos, c => Digit(c));
      if end == pos || (end - pos > 1 && text[pos] == '0') then None
      else if fields == 1 then Some(end)
      else if end == |text| || text[end] != '.' then None
      else CoreEnd(text, end + 1, fields - 1)
  }

  /** Dotted identifiers; a numeric pre-release identifier has no leading zero. */
  function IdentifiersEnd(text: string, pos: nat, release: bool): (end: Option<nat>)
    requires pos <= |text|
    ensures end.Some? ==> end.value <= |text|
    decreases |text| - pos
  {
    var end := RunEnd(text, pos, c => LowerAlpha(c) || UpperAlpha(c) || Digit(c) || c == '-');
    var numeric := forall i :: pos <= i < end ==> Digit(text[i]);
    if end == pos || (release && numeric && end - pos > 1 && text[pos] == '0') then None
    else if end == |text| || text[end] != '.' then Some(end)
    else IdentifiersEnd(text, end + 1, release)
  }

  function SuffixEnd(text: string, pos: nat, delimiter: char): (end: Option<nat>)
    requires pos <= |text|
    ensures end.Some? ==> end.value <= |text|
  {
    if pos == |text| || text[pos] != delimiter then Some(pos) else IdentifiersEnd(text, pos + 1, delimiter == '-')
  }

  predicate ValidVersion(text: string) {
    && 1 <= |text| <= 256
    && var core := CoreEnd(text, 0, 3);
       core.Some?
       && var pre := SuffixEnd(text, core.value, '-');
          pre.Some? && SuffixEnd(text, pre.value, '+') == Some(|text|)
  }

  // ----- records -----

  datatype Principal = Anonymous | Pat(userId: string, patId: string)

  datatype Extension = Extension(packageId: string, name: string, version: string, artifactSha256: string,
                                 receiptId: string)

  datatype ContextData = ContextData(
    dispatchId: string,
    ownerEpoch: string,
    adapterEpoch: string,
    clockDomainId: string,
    admittedAt: U64,
    cutoff: U64,
    matchedPrefix: string,
    principal: Principal,
    extension: Extension)

  predicate ValidExtension(e: Extension) {
    ValidUuid(e.packageId) && ValidName(e.name) && ValidVersion(e.version) && ValidHex256(e.artifactSha256)
    && ValidUuid(e.receiptId)
  }

  predicate ValidContext(c: ContextData) {
    && ValidUuid(c.dispatchId) && ValidUuid(c.ownerEpoch) && ValidUuid(c.adapterEpoch) && ValidUuid(c.clockDomainId)
    && c.admittedAt <= c.cutoff && ValidClaim(c.matchedPrefix) && ValidExtension(c.extension)
    && (c.principal.Pat? ==> ValidUuid(c.principal.userId) && ValidUuid(c.principal.patId))
  }
}
