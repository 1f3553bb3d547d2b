/** Content-Security-Policy headers: the directive list of a header, its rewriting at start-up,
    and the header printed from it again. The syntax is a part of the serialized policies of
    section 2.2 of W3C Content Security Policy Level 3. */
module CspPatch {
  import opened Collections
  import opened OrderedMap

  // ----- split and join on "; " -----

  /** Index of the first "; " of `s`, or the length of `s` if there is none. */
  function FirstSep(s: string): (i: nat)
    ensures i <= |s|
    ensures i < |s| ==> i + 2 <= |s| && s[i] == ';' && s[i + 1] == ' '
  {
    if |s| < 2 then |s|
    else if s[0] == ';' && s[1] == ' ' then 0
    else 1 + FirstSep(s[1..])
  }

  predicate HasSep(s: string) {
    FirstSep(s) < |s|
  }

  function Split(s: string): seq<string>
    decreases |s|
  {
    var i := FirstSep(s);
    if i == |s| then [s] else [s[..i]] + Split(s[i + 2..])
  }

  function Join(parts: seq<string>): string {
    if parts == [] then "" else
    if |parts| == 1 then parts[0] else parts[0] + "; " + Join(parts[1..])
  }

  lemma {:induction false} FirstSepAfter(p: string, rest: string)
    requires !HasSep(p)
    ensures FirstSep(p + "; " + rest) == |p|
  {
    var s := p + "; " + rest;
    if p == "" {
      assert s[0] == ';' && s[1] == ' ';
    } else {
      assert s[1..] == p[1..] + "; " + rest;
      assert |p| >= 2 ==> !(p[0] == ';' && p[1] == ' ');
      assert |p| == 1 ==> s[1] == ';';
      assert !HasSep(p[1..]);
      FirstSepAfter(p[1..], rest);
    }
  }

  lemma {:induction false} FirstSepIsFirst(s: string)
    ensures !HasSep(s[..FirstSep(s)])
  {
    var i := FirstSep(s);
    if |s| >= 2 && i > 0 {
      FirstSepIsFirst(s[1..]);
      assert s[..i][1..] == s[1..][..i - 1];
      assert |s[..i]| >= 2 ==> s[..i][0] == s[0] && s[..i][1] == s[1];
    }
  }

  lemma {:induction false} SplitClean(s: string)
    ensures Split(s) != [] && forall p <- Split(s) :: !HasSep(p)
    decreases |s|
  {
    var i := FirstSep(s);
    FirstSepIsFirst(s);
    if i < |s| {
      SplitClean(s[i + 2..]);
    } else {
      assert s[..i] == s;
    }
  }

  lemma SepAt(s: string, i: nat)
    requires i + 2 <= |s| && s[i] == ';' && s[i + 1] == ' '
    ensures s == s[..i] + "; " + s[i + 2..]
  {
  }

  lemma {:induction false} JoinSplit(s: string)
    ensures Join(Split(s)) == s
    decreases |s|
  {
    var i := FirstSep(s);
    if i < |s| {
      JoinSplit(s[i + 2..]);
      SplitClean(s[i + 2..]);
      assert Split(s)[1..] == Split(s[i + 2..]);
      SepAt(s, i);
    }
  }

  lemma {:induction false} SplitJoin(parts: seq<string>)
    requires parts != [] && forall p <- parts :: !HasSep(p)
    ensures Split(Join(parts)) == parts
  {
    assert parts[0] in parts;
    if |parts| > 1 {
      var s, rest := Join(parts), Join(parts[1..]);
      FirstSepAfter(parts[0], rest);
      assert s == parts[0] + "; " + rest;
      assert s[..|parts[0]|] == parts[0] && s[|parts[0]| + 2..] == rest;
      SplitJoin(parts[1..]);
    }
  }

  // ----- directives -----

  type Directive = Pair<string, string>

  type Directives = OMap<string, string>

  function Find(s: string, c: char): (i: nat)
    ensures i <= |s| && c !in s[..i] && (i < |s| ==> s[i] == c)
  {
    if s == "" || s[0] == c then 0 else 1 + Find(s[1..], c)
  }

  function ParsePart(part: string): Directive {
    var i := Find(part, ' ');
    if i == |part| then Pair(part, "") else Pair(part[..i], part[i + 1..])
  }

  function PrintPart(d: Directive): string {
    if d.value != "" then d.key + " " + d.value else d.key
  }

  function ParseParts(parts: seq<string>): Directives {
    if parts == [] then [] else Put(ParseParts(parts[..|parts| - 1]), ParsePart(parts[|parts| - 1]))
  }

  function PrintParts(ds: Directives): (parts: seq<string>)
    ensures |parts| == |ds|
    ensures forall i :: 0 <= i < |ds| ==> parts[i] == PrintPart(ds[i])
  {
    if ds == [] then [] else PrintParts(ds[..|ds| - 1]) + [PrintPart(ds[|ds| - 1])]
  }

  function Parse(header: string): Directives {
    ParseParts(Split(header))
  }

  function Print(ds: Directives): string {
    Join(PrintParts(ds))
  }

  ghost predicate WellFormedDirective(d: Directive) {
    ' ' !in d.key && !HasSep(PrintPart(d))
  }

  ghost predicate WellFormed(ds: Directives) {
    ds != [] && DistinctKeys(ds) && forall d <- ds :: WellFormedDirective(d)
  }

  // ----- round trips -----

  lemma ParsePrintPart(d: Directive)
    requires ' ' !in d.key
    ensures ParsePart(PrintPart(d)) == d
  {
    var p := PrintPart(d);
    if d.value != "" {
      assert p[..|d.key|] == d.key && p[|d.key|] == ' ' && p[|d.key| + 1..] == d.value;
      FindFirst(p, ' ', |d.key|);
    } else {
      assert p[..|p|] == p;
      FindFirst(p, ' ', |p|);
    }
  }

  lemma FindFirst(s: string, c: char, k: nat)
    requires k <= |s| && c !in s[..k] && (k < |s| ==> s[k] == c)
    ensures Find(s, c) == k
  {
  }

  lemma PrintParsePart(p: string)
    ensures ' ' !in ParsePart(p).key
    ensures PrintPart(ParsePart(p)) == p <==> p != ParsePart(p).key + " "
    ensures |PrintPart(ParsePart(p))| <= |p| && PrintPart(ParsePart(p)) == p[..|PrintPart(ParsePart(p))|]
  {
  }

  lemma {:induction false} PrefixClean(p: string, n: nat)
    requires n <= |p| && !HasSep(p)
    ensures !HasSep(p[..n])
  {
    if n >= 2 {
      assert p[..n][0] == p[0] && p[..n][1] == p[1] && p[..n][1..] == p[1..][..n - 1];
      PrefixClean(p[1..], n - 1);
    }
  }

  lemma SetKeepsWellFormed(ds: Directives, d: Directive)
    requires DistinctKeys(ds) && (forall x <- ds :: WellFormedDirective(x)) && WellFormedDirective(d)
    ensures WellFormed(Put(ds, d))
  {
  }

  lemma {:induction false} ParsePartsWellFormed(parts: seq<string>)
    requires parts != [] && forall p <- parts :: !HasSep(p)
    ensures WellFormed(ParseParts(parts))
  {
    var front, p := parts[..|parts| - 1], parts[|parts| - 1];
    if front != [] {
      ParsePartsWellFormed(front);
    }
    PrintParsePart(p);
    PrefixClean(p, |PrintPart(ParsePart(p))|);
    SetKeepsWellFormed(ParseParts(front), ParsePart(p));
  }

  lemma ParseWellFormed(header: string)
    ensures WellFormed(Parse(header))
  {
    SplitClean(header);
    ParsePartsWellFormed(Split(header));
  }

  lemma ParseOneMore(parts: seq<string>, p: string)
    ensures ParseParts(parts + [p]) == Put(ParseParts(parts), ParsePart(p))
  {
  }

  lemma PrintOneMore(ds: Directives, d: Directive)
    ensures PrintParts(ds + [d]) == PrintParts(ds) + [PrintPart(d)]
  {
  }

  lemma {:induction false} ParsePrintedParts(ds: Directives)
    requires DistinctKeys(ds) && forall d <- ds :: ' ' !in d.key
    ensures ParseParts(PrintParts(ds)) == ds
  {
    if ds != [] {
      var front, d := ds[..|ds| - 1], ds[|ds| - 1];
      assert ds == front + [d] && d in ds;
      assert DistinctKeys(front) && forall x <- front :: x in ds;
      ParsePrintedParts(front);
      PrintOneMore(front, d);
      ParseOneMore(PrintParts(front), PrintPart(d));
      ParsePrintPart(d);
      PutNewKey(front, d);
    }
  }

  lemma PrintedPartsClean(ds: Directives)
    requires forall d <- ds :: WellFormedDirective(d)
    ensures forall p <- PrintParts(ds) :: !HasSep(p)
  {
    forall p <- PrintParts(ds) ensures !HasSep(p) {
      var i :| 0 <= i < |ds| && PrintParts(ds)[i] == p;
      assert WellFormedDirective(ds[i]);
    }
  }

  /** Printing and parsing gives a directive list back exactly when it is well formed:
      not empty, no name twice, no space in a name, no "; " inside a printed directive. */
  lemma ParsePrint(ds: Directives)
    ensures Parse(Print(ds)) == ds <==> WellFormed(ds)
  {
    ParseWellFormed(Print(ds));
    if WellFormed(ds) {
      PrintedPartsClean(ds);
      SplitJoin(PrintParts(ds));
      ParsePrintedParts(ds);
    }
  }

  /** No directive name twice, and no directive that is a name and a space. */
  ghost predicate Tidy(parts: seq<string>) {
    && DistinctParts(parts)
    && (forall p <- parts :: p != ParsePart(p).key + " ")
  }

  ghost predicate DistinctParts(parts: seq<string>) {
    forall i, j :: 0 <= i < j < |parts| ==> ParsePart(parts[i]).key != ParsePart(parts[j]).key
  }

  lemma {:induction false} ParsePartsHas(parts: seq<string>, i: nat)
    requires i < |parts|
    ensures |ParseParts(parts)| <= |parts| && Has(ParseParts(parts), ParsePart(parts[i]).key)
  {
    var front, p := parts[..|parts| - 1], parts[|parts| - 1];
    if front != [] {
      ParsePartsHas(front, if i < |front| then i else 0);
    }
    PutAndFind(ParseParts(front), ParsePart(p));
  }

  lemma {:induction false} DistinctPartsKept(parts: seq<string>)
    requires DistinctParts(parts)
    ensures |ParseParts(parts)| == |parts|
    ensures forall i :: 0 <= i < |parts| ==> ParseParts(parts)[i] == ParsePart(parts[i])
  {
    if parts != [] {
      var front, d := parts[..|parts| - 1], ParsePart(parts[|parts| - 1]);
      DistinctPartsKept(front);
      forall j | 0 <= j < |front| ensures ParseParts(front)[j].key != d.key {
        assert front[j] == parts[j];
      }
      PutAbsent(ParseParts(front), d);
    }
  }

  lemma {:induction false} KeptPartsDistinct(parts: seq<string>)
    requires |ParseParts(parts)| == |parts|
    ensures DistinctParts(parts)
  {
    if parts != [] {
      var front, d := parts[..|parts| - 1], ParsePart(parts[|parts| - 1]);
      if front != [] {
        ParsePartsHas(front, 0);
      }
      KeptPartsDistinct(front);
      forall i | 0 <= i < |front| ensures ParsePart(front[i]).key != d.key {
        ParsePartsHas(front, i);
      }
    }
  }

  lemma TidyPartsReprint(parts: seq<string>)
    ensures PrintParts(ParseParts(parts)) == parts <==> Tidy(parts)
  {
    var ds := ParseParts(parts);
    forall p <- parts {
      PrintParsePart(p);
    }
    if |ds| == |parts| {
      KeptPartsDistinct(parts);
    }
    if DistinctParts(parts) {
      DistinctPartsKept(parts);
      forall i | 0 <= i < |parts| ensures PrintParts(ds)[i] == parts[i] <==> parts[i] != ParsePart(parts[i]).key + " " {
        assert parts[i] in parts;
      }
      if Tidy(parts) {
        assert PrintParts(ds) == parts;
      }
    }
  }

  /** Parsing and printing gives a header back exactly when it is tidy. */
  lemma PrintParse(header: string)
    ensures Print(Parse(header)) == header <==> Tidy(Split(header))
  {
    TidyPartsReprint(Split(header));
    JoinSplit(header);
    ParseWellFormed(header);
    PrintedPartsClean(Parse(header));
    SplitJoin(PrintParts(Parse(header)));
  }

  // ----- patching -----

  /** What the environment sets: NEXT_PUBLIC_CSP_FRAME_SRC ("" if unset), and the origins of
      NEXT_PUBLIC_API_URL and NEXT_PUBLIC_KEYCLOAK_URL where these are set and parse as URLs. */
  datatype Env = Env(frameSrc: string, apiUrlSet: bool, apiOrigin: Option<string>, keycloakOrigin: Option<string>)

  function FrameSrc(env: Env): string {
    "'self' blob: " + env.frameSrc + " https:"
  }

  /** `apiOrigin.replace(/^http/, 'ws')`. */
  function WsOrigin(origin: string): string {
    if "http" <= origin then "ws" + origin[4..] else origin
  }

  function ConnectSrc(origin: string, keycloak: Option<string>): string {
    "'self' " + origin + " " + WsOrigin(origin)
    + (if keycloak.Some? then " " + keycloak.value else "") + " https: wss:"
  }

  const FRAME := "frame-src"
  const CONNECT := "connect-src"

  /** The directive to set, if the environment asks for one. */
  function FrameDirective(env: Env): Option<Directive> {
    if env.frameSrc != "" then Some(Pair(FRAME, FrameSrc(env))) else None
  }

  function ConnectDirective(env: Env): Option<Directive> {
    if env.apiUrlSet && env.apiOrigin.Some?
    then Some(Pair(CONNECT, ConnectSrc(env.apiOrigin.value, env.keycloakOrigin)))
    else None
  }

  function SetIfAny(ds: Directives, d: Option<Directive>): Directives {
    if d.Some? then Put(ds, d.value) else ds
  }

  function PatchDirectives(ds: Directives, env: Env): Directives {
    SetIfAny(SetIfAny(ds, FrameDirective(env)), ConnectDirective(env))
  }

  function PatchValue(header: string, env: Env): string {
    Print(PatchDirectives(Parse(header), env))
  }

  ghost predicate CleanDirective(d: Option<Directive>) {
    d.Some? ==> WellFormedDirective(d.value)
  }

  /** The values the environment brings in can stand in a directive. */
  ghost predicate Clean(env: Env) {
    CleanDirective(FrameDirective(env)) && CleanDirective(ConnectDirective(env))
  }

  lemma Concat3NoSemicolon(a: string, b: string, c: string)
    requires ';' !in a && ';' !in b && ';' !in c
    ensures ';' !in a + b + c
  {
  }

  lemma FrameNoSemicolon(source: string)
    requires ';' !in source
    ensures ';' !in "'self' blob: " + source + " https:"
  {
  }

  lemma ConnectNoSemicolon(origin: string, keycloak: Option<string>)
    requires ';' !in origin && (keycloak.Some? ==> ';' !in keycloak.value)
    ensures ';' !in ConnectSrc(origin, keycloak)
  {
    var rest := if keycloak.Some? then " " + keycloak.value else "";
    assert ';' !in rest && ';' !in WsOrigin(origin);
    assert ';' !in " https: wss:" && ';' !in "'self' " && ';' !in " ";
    Concat3NoSemicolon("'self' ", origin, " ");
    Concat3NoSemicolon("'self' " + origin + " ", WsOrigin(origin), rest);
    Concat3NoSemicolon("'self' " + origin + " " + WsOrigin(origin) + rest, " https: wss:", "");
    assert ConnectSrc(origin, keycloak) == "'self' " + origin + " " + WsOrigin(origin) + rest + " https: wss:" + "";
  }

  lemma NoSemicolonDirective(name: string, value: string)
    requires ';' !in name && ';' !in value && ' ' !in name
    ensures WellFormedDirective(Pair(name, value))
  {
  }

  /** An environment without semicolons is clean. */
  lemma NoSemicolonsClean(env: Env)
    requires ';' !in env.frameSrc
    requires env.apiOrigin.Some? ==> ';' !in env.apiOrigin.value
    requires env.keycloakOrigin.Some? ==> ';' !in env.keycloakOrigin.value
    ensures Clean(env)
  {
    if FrameDirective(env).Some? {
      FrameNoSemicolon(env.frameSrc);
      NoSemicolonDirective(FRAME, FrameSrc(env));
    }
    if ConnectDirective(env).Some? {
      ConnectNoSemicolon(env.apiOrigin.value, env.keycloakOrigin);
      NoSemicolonDirective(CONNECT, ConnectSrc(env.apiOrigin.value, env.keycloakOrigin));
    }
  }

  lemma SetIfAnyWellFormed(ds: Directives, d: Option<Directive>)
    requires WellFormed(ds) && CleanDirective(d)
    ensures WellFormed(SetIfAny(ds, d))
  {
  }

  lemma PatchedWellFormed(header: string, env: Env)
    requires Clean(env)
    ensures WellFormed(PatchDirectives(Parse(header), env))
  {
    ParseWellFormed(header);
    SetIfAnyWellFormed(Parse(header), FrameDirective(env));
    SetIfAnyWellFormed(SetIfAny(Parse(header), FrameDirective(env)), ConnectDirective(env));
  }

  ghost predicate Named(d: Option<Directive>, name: string) {
    d.Some? ==> d.value.key == name
  }

  /** `after` is `before` with the directives of two names overwritten or appended. */
  ghost predicate ChangesOnly(before: Directives, after: Directives, a: string, b: string) {
    && |before| <= |after| <= |before| + 2
    && (forall i :: 0 <= i < |before| ==> after[i].key == before[i].key)
    && (forall i :: 0 <= i < |before| && before[i].key != a && before[i].key != b ==> after[i] == before[i])
    && (forall i :: |before| <= i < |after| ==> after[i].key == a || after[i].key == b)
  }

  lemma SetTwo(ds: Directives, a: Option<Directive>, b: Option<Directive>, nameA: string, nameB: string)
    requires Named(a, nameA) && Named(b, nameB) && nameA != nameB
    ensures var after := SetIfAny(SetIfAny(ds, a), b);
      && ChangesOnly(ds, after, nameA, nameB)
      && (a.Some? ==> a.value in after) && (b.Some? ==> b.value in after)
  {
    var middle := SetIfAny(ds, a);
    var after := SetIfAny(middle, b);
    if a.Some? {
      PutKeepsOthers(ds, a.value);
    }
    if b.Some? {
      PutKeepsOthers(middle, b.value);
    }
    if a.Some? {
      var j :| 0 <= j < |middle| && middle[j] == a.value;
      assert after[j] == a.value;
    }
  }

  lemma NamesDiffer()
    ensures FRAME != CONNECT
  {
  }

  lemma PatchAgain(ds: Directives, env: Env)
    requires DistinctKeys(PatchDirectives(ds, env))
    ensures PatchDirectives(PatchDirectives(ds, env), env) == PatchDirectives(ds, env)
  {
    NamesDiffer();
    var frame, connect, after := FrameDirective(env), ConnectDirective(env), PatchDirectives(ds, env);
    SetTwo(ds, frame, connect, FRAME, CONNECT);
    if frame.Some? {
      PutAgain(after, frame.value);
    }
    if connect.Some? {
      PutAgain(after, connect.value);
    }
  }

  /** Patching a patched header with the same environment changes nothing. */
  lemma PatchIdempotent(header: string, env: Env)
    requires Clean(env)
    ensures PatchValue(PatchValue(header, env), env) == PatchValue(header, env)
  {
    PatchedWellFormed(header, env);
    ParsePrint(PatchDirectives(Parse(header), env));
    PatchAgain(Parse(header), env);
  }

  /** What a reader of the patched header finds: every directive of the old header in its
      place, with its value unless it is one of the two patched ones; these with the values
      the environment asks for; and nothing else. */
  lemma PatchChangesOnlyTwo(header: string, env: Env)
    requires Clean(env)
    ensures var before, after := Parse(header), Parse(PatchValue(header, env));
      && ChangesOnly(before, after, FRAME, CONNECT)
      && (FrameDirective(env).Some? ==> FrameDirective(env).value in after)
      && (ConnectDirective(env).Some? ==> ConnectDirective(env).value in after)
  {
    PatchedWellFormed(header, env);
    ParsePrint(PatchDirectives(Parse(header), env));
    NamesDiffer();
    SetTwo(Parse(header), FrameDirective(env), ConnectDirective(env), FRAME, CONNECT);
  }

  /** The websocket origin: "http" in front becomes "ws", so https becomes wss; else unchanged. */
  lemma WsOriginIs(origin: string, rest: string)
    ensures WsOrigin("http" + rest) == "ws" + rest
    ensures !("http" <= origin) ==> WsOrigin(origin) == origin
  {
    assert ("http" + rest)[4..] == rest;
  }

  /** The values a reader finds when the environment asks for them. */
  lemma PatchedValues(header: string, env: Env)
    requires Clean(env)
    ensures env.frameSrc != "" ==>
      Pair("frame-src", "'self' blob: " + env.frameSrc + " https:") in Parse(PatchValue(header, env))
    ensures env.apiUrlSet && env.apiOrigin.Some? && env.keycloakOrigin.None? ==>
      Pair("connect-src", "'self' " + env.apiOrigin.value + " " + WsOrigin(env.apiOrigin.value) + " https: wss:")
        in Parse(PatchValue(header, env))
    ensures env.apiUrlSet && env.apiOrigin.Some? && env.keycloakOrigin.Some? ==>
      Pair("connect-src", "'self' " + env.apiOrigin.value + " " + WsOrigin(env.apiOrigin.value)
                          + " " + env.keycloakOrigin.value + " https: wss:")
        in Parse(PatchValue(header, env))
  {
    PatchChangesOnlyTwo(header, env);
    if env.apiUrlSet && env.apiOrigin.Some? {
      ConnectSrcIs(env.apiOrigin.value, env.keycloakOrigin);
    }
  }

  lemma ConnectSrcIs(origin: string, keycloak: Option<string>)
    ensures keycloak.None? ==>
      ConnectSrc(origin, keycloak) == "'self' " + origin + " " + WsOrigin(origin) + " https: wss:"
    ensures keycloak.Some? ==>
      ConnectSrc(origin, keycloak) == "'self' " + origin + " " + WsOrigin(origin) + " " + keycloak.value + " https: wss:"
  {
    var start := "'self' " + origin + " " + WsOrigin(origin);
    if keycloak.Some? {
      assert start + (" " + keycloak.value) == start + " " + keycloak.value;
    } else {
      assert start + "" == start;
    }
  }

  /** A directive the environment does not ask for keeps its value and place, or stays absent. */
  lemma UnsetIsKept(header: string, env: Env)
    requires Clean(env)
    ensures env.frameSrc == "" ==> ChangesOnly(Parse(header), Parse(PatchValue(header, env)), "connect-src", "connect-src")
    ensures !(env.apiUrlSet && env.apiOrigin.Some?) ==>
      ChangesOnly(Parse(header), Parse(PatchValue(header, env)), "frame-src", "frame-src")
  {
    PatchedWellFormed(header, env);
    ParsePrint(PatchDirectives(Parse(header), env));
    SetOne(Parse(header), FrameDirective(env), FRAME);
    SetOne(Parse(header), ConnectDirective(env), CONNECT);
  }

  lemma SetOne(ds: Directives, d: Option<Directive>, name: string)
    requires Named(d, name)
    ensures ChangesOnly(ds, SetIfAny(ds, d), name, name)
  {
    if d.Some? {
      PutKeepsOthers(ds, d.value);
    }
  }

  // ----- the script -----

  class Header {
    const key: string
    var value: string

    constructor (key: string, value: string)
      ensures this.key == key && this.value == value
    {
      this.key, this.value := key, value;
    }
  }

  predicate Patches(env: Env) {
    env.frameSrc != "" || (env.apiUrlSet && env.apiOrigin.Some?)
  }

  method ParseHeader(value: string) returns (directives: Directives)
    ensures directives == Parse(value)
  {
    var parts := Split(value);
    directives := [];
    for i := 0 to |parts|
      invariant directives == ParseParts(parts[..i])
    {
      assert parts[..i + 1] == parts[..i] + [parts[i]];
      ParseOneMore(parts[..i], parts[i]);
      var spaceIdx := Find(parts[i], ' ');
      if spaceIdx == |parts[i]| {
        directives := Put(directives, Pair(parts[i], ""));
      } else {
        directives := Put(directives, Pair(parts[i][..spaceIdx], parts[i][spaceIdx + 1..]));
      }
    }
    assert parts[..|parts|] == parts;
  }

  method PrintHeader(directives: Directives) returns (value: string)
    ensures value == Print(directives)
  {
    var cspParts: seq<string> := [];
    for i := 0 to |directives|
      invariant cspParts == PrintParts(directives[..i])
    {
      assert directives[..i + 1] == directives[..i] + [directives[i]];
      PrintOneMore(directives[..i], directives[i]);
      var d := directives[i];
      cspParts := cspParts + [if d.value != "" then d.key + " " + d.value else d.key];
    }
    assert directives[..|directives|] == directives;
    value := Join(cspParts);
  }

  /** Parse, patch and reassemble one header in place. */
  method PatchHeader(header: Header, env: Env) returns (patched: bool)
    modifies header
    ensures header.value == PatchValue(old(header.value), env)
    ensures patched == Patches(env)
  {
    var directives := ParseHeader(header.value);
    patched := false;
    if env.frameSrc != "" {
      directives := Put(directives, Pair(FRAME, FrameSrc(env)));
      patched := true;
    }
    if env.apiUrlSet && env.apiOrigin.Some? {
      directives := Put(directives, Pair(CONNECT, ConnectSrc(env.apiOrigin.value, env.keycloakOrigin)));
      patched := true;
    }
    header.value := PrintHeader(directives);
  }

  const CSP := "Content-Security-Policy"

  /** What becomes of a header's value. */
  function ValueAfter(key: string, value: string, env: Env): string {
    if key == CSP && (env.frameSrc != "" || env.apiUrlSet) then PatchValue(value, env) else value
  }

  predicate AnyCsp(headers: seq<Header>) {
    headers != [] && (AnyCsp(headers[..|headers| - 1]) || headers[|headers| - 1].key == CSP)
  }

  method PatchIfCsp(header: Header, env: Env) returns (patched: bool)
    requires env.frameSrc != "" || env.apiUrlSet
    modifies header
    ensures header.value == ValueAfter(header.key, old(header.value), env)
    ensures patched <==> Patches(env) && header.key == CSP
  {
    if header.key != CSP {
      return false;
    }
    patched := PatchHeader(header, env);
  }

  /** All headers of all routes, one after the other. The manifest file is written back only
      when something was patched. */
  method PatchCspHeaders(headers: seq<Header>, env: Env) returns (written: bool)
    requires forall i, j :: 0 <= i < j < |headers| ==> headers[i] != headers[j]
    modifies headers
    ensures forall i :: 0 <= i < |headers| ==> headers[i].value == ValueAfter(headers[i].key, old(headers[i].value), env)
    ensures written <==> (env.frameSrc != "" || (env.apiUrlSet && env.apiOrigin.Some?)) && AnyCsp(headers)
  {
    written := false;
    if env.frameSrc == "" && !env.apiUrlSet {
      return;
    }
    for i := 0 to |headers|
      invariant forall j :: i <= j < |headers| ==> headers[j].value == old(headers[j].value)
      invariant forall j :: 0 <= j < i ==> headers[j].value == ValueAfter(headers[j].key, old(headers[j].value), env)
      invariant written <==> Patches(env) && AnyCsp(headers[..i])
    {
      assert headers[..i + 1][..i] == headers[..i];
      var patched := PatchIfCsp(headers[i], env);
      written := written || patched;
    }
    assert headers[..|headers|] == headers;
  }
}
