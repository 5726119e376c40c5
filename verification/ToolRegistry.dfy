/** The tool registry's two-way index of names and model-visible aliases, and the aliases themselves. */
module ToolRegistry {
  import opened Results
  import opened Texts

  /** `safeName` is empty when the tool has none; `body` stands for the rest of the definition. */
  datatype Definition = Definition(
    name: string, safeName: string, isMcp: bool, timeoutPositive: bool, maxRetries: int, body: nat)

  datatype RegistryError = InvalidName | Duplicate | InvalidPolicy | Unknown

  datatype Index = Index(tools: map<string, Definition>, aliases: map<string, string>)

  const EMPTY_INDEX := Index(map[], map[])
  const MAX_NAME := 160

  predicate NameOk(name: string) {
    name != "" && |name| <= MAX_NAME
  }

  function RegisterRefusal(x: Index, d: Definition): Option<RegistryError> {
    if !NameOk(d.name) then Some(InvalidName)
    else if d.name in x.tools then Some(Duplicate)
    else if d.safeName != "" && d.safeName in x.aliases then Some(Duplicate)
    else if !d.timeoutPositive || d.maxRetries !in {0, 1} then Some(InvalidPolicy)
    else None
  }

  function WithAlias(aliases: map<string, string>, d: Definition): map<string, string> {
    if d.safeName != "" then aliases[d.safeName := d.name] else aliases
  }

  function Registered(x: Index, d: Definition): Index {
    Index(x.tools[d.name := d], WithAlias(x.aliases, d))
  }

  function ReplaceRefusal(x: Index, d: Definition): Option<RegistryError> {
    if d.name in x.tools && !x.tools[d.name].isMcp then Some(Duplicate)
    else if !NameOk(d.name) then Some(InvalidName)
    else if d.safeName != "" && d.safeName in x.aliases && x.aliases[d.safeName] != d.name then Some(Duplicate)
    else None
  }

  function Replaced(x: Index, d: Definition): Index {
    var kept := if d.name in x.tools && x.tools[d.name].safeName != ""
                then x.aliases - {x.tools[d.name].safeName} else x.aliases;
    Index(x.tools[d.name := d], WithAlias(kept, d))
  }

  function Lookup(x: Index, name: string): Option<Definition> {
    var key := if name in x.aliases then x.aliases[name] else name;
    if key in x.tools then Some(x.tools[key]) else None
  }

  /** The name under which the manifest shows a tool to the model. */
  function ManifestKey(d: Definition): string {
    if d.safeName != "" then d.safeName else d.name
  }

  /** Registering succeeds iff the name has 1 to 160 characters and is new, the alias, if any, is nobody's, the time
      limit is positive and there is at most one retry. The error names the first of these that fails. Success adds the
      tool and its alias; a refusal changes nothing. */
  lemma RegisteringTells(x: Index, d: Definition)
    ensures var named := 1 <= |d.name| <= 160;
            var taken := d.name in x.tools || (d.safeName != "" && d.safeName in x.aliases);
            var policy := d.timeoutPositive && 0 <= d.maxRetries <= 1;
            && (RegisterRefusal(x, d).None? <==> named && !taken && policy)
            && (RegisterRefusal(x, d) == Some(InvalidName) <==> !named)
            && (RegisterRefusal(x, d) == Some(Duplicate) <==> named && taken)
            && (RegisterRefusal(x, d) == Some(InvalidPolicy) <==> named && !taken && !policy)
            && (!(named && !taken && policy) ==> Perform(x, Register(d)) == x)
            && (named && !taken && policy ==>
                  && (forall n :: n in Perform(x, Register(d)).tools <==> n in x.tools || n == d.name)
                  && (forall n :: n in x.tools ==> Perform(x, Register(d)).tools[n] == x.tools[n])
                  && Perform(x, Register(d)).tools[d.name] == d
                  && (forall a :: a in Perform(x, Register(d)).aliases <==>
                        a in x.aliases || (a == d.safeName && a != ""))
                  && (forall a :: a in x.aliases ==> Perform(x, Register(d)).aliases[a] == x.aliases[a])
                  && (d.safeName != "" ==> Perform(x, Register(d)).aliases[d.safeName] == d.name))
  {
  }

  /** Replacing succeeds iff no tool of that name is built in, the name has 1 to 160 characters, and the alias, if any,
      is not another tool's. Success puts the tool in place of its predecessor, whose alias goes; a refusal changes
      nothing. */
  lemma ReplacingTells(x: Index, d: Definition)
    requires Agrees(x)
    ensures var builtIn := d.name in x.tools && !x.tools[d.name].isMcp;
            var named := 1 <= |d.name| <= 160;
            var taken := d.safeName != "" && d.safeName in x.aliases && x.aliases[d.safeName] != d.name;
            var y := Perform(x, RegisterOrReplace(d));
            && (ReplaceRefusal(x, d).None? <==> !builtIn && named && !taken)
            && (ReplaceRefusal(x, d) == Some(InvalidName) <==> !builtIn && !named)
            && (ReplaceRefusal(x, d) == Some(Duplicate) <==> builtIn || (named && taken))
            && (builtIn || !named || taken ==> y == x)
            && (!builtIn && named && !taken ==>
                  && (forall n :: n in y.tools <==> n in x.tools || n == d.name)
                  && (forall n :: n in x.tools && n != d.name ==> y.tools[n] == x.tools[n])
                  && y.tools[d.name] == d
                  && (forall a :: a in y.aliases <==>
                        (a == d.safeName && a != "") || (a in x.aliases && x.aliases[a] != d.name))
                  && (forall a :: a in y.aliases ==> y.aliases[a] == if a == d.safeName then d.name else x.aliases[a]))
  {
  }

  datatype Action = Register(d: Definition) | RegisterOrReplace(d: Definition)

  function Perform(x: Index, a: Action): Index {
    match a
    case Register(d) => if RegisterRefusal(x, d).None? then Registered(x, d) else x
    case RegisterOrReplace(d) => if ReplaceRefusal(x, d).None? then Replaced(x, d) else x
  }

  function Replay(x: Index, acts: seq<Action>): Index
    decreases |acts|
  {
    if acts == [] then x else Replay(Perform(x, acts[0]), acts[1..])
  }

  /** Alias to name and name to alias are mutual inverses. */
  ghost predicate Agrees(x: Index) {
    && (forall n :: n in x.tools ==> x.tools[n].name == n)
    && (forall a :: a in x.aliases ==> a != "" && x.aliases[a] in x.tools && x.tools[x.aliases[a]].safeName == a)
    && (forall n :: n in x.tools && x.tools[n].safeName != "" ==>
          x.tools[n].safeName in x.aliases && x.aliases[x.tools[n].safeName] == n)
  }

  lemma PerformKeepsAgreement(x: Index, a: Action)
    requires Agrees(x)
    ensures Agrees(Perform(x, a))
    ensures forall n :: n in x.tools ==> n in Perform(x, a).tools
    ensures forall n :: n in x.tools && !x.tools[n].isMcp ==> Perform(x, a).tools[n] == x.tools[n]
  {
    match a
    case Register(d) =>
    case RegisterOrReplace(d) =>
      if ReplaceRefusal(x, d).None? {
        ReplacingKeepsAgreement(x, d);
      }
  }

  lemma ReplacingKeepsAgreement(x: Index, d: Definition)
    requires Agrees(x) && ReplaceRefusal(x, d).None?
    ensures Agrees(Replaced(x, d))
  {
    var y := Replaced(x, d);
    forall b | b in y.aliases ensures b != "" && y.aliases[b] in y.tools && y.tools[y.aliases[b]].safeName == b {
      if b != d.safeName { assert b in x.aliases && y.aliases[b] == x.aliases[b]; }
    }
    forall n | n in y.tools && y.tools[n].safeName != ""
      ensures y.tools[n].safeName in y.aliases && y.aliases[y.tools[n].safeName] == n
    {
      if n != d.name { assert x.tools[n].safeName in x.aliases && x.aliases[x.tools[n].safeName] == n; }
    }
  }

  /** Over every history the two indexes agree, and a tool that is not MCP-backed is never replaced. */
  lemma {:induction false} ReplayAgrees(x: Index, acts: seq<Action>)
    requires Agrees(x)
    ensures Agrees(Replay(x, acts))
    ensures forall n :: n in x.tools ==> n in Replay(x, acts).tools
    ensures forall n :: n in x.tools && !x.tools[n].isMcp ==> Replay(x, acts).tools[n] == x.tools[n]
    decreases |acts|
  {
    if acts != [] {
      PerformKeepsAgreement(x, acts[0]);
      ReplayAgrees(Perform(x, acts[0]), acts[1..]);
    }
  }

  /** Looking up the key the manifest shows gives back the definition that produced it exactly when the tool has
      an alias or its name is nobody's alias. */
  lemma ManifestKeyResolvesIff(x: Index, n: string)
    requires Agrees(x) && n in x.tools
    ensures Lookup(x, ManifestKey(x.tools[n])) == Some(x.tools[n]) <==> x.tools[n].safeName != "" || n !in x.aliases
  {
    var d := x.tools[n];
    if d.safeName == "" && n in x.aliases {
      assert x.tools[x.aliases[n]].safeName == n;
    }
  }

  /** The counterpart: a tool can be shadowed, since registration compares aliases with aliases only. */
  lemma AliasMayShadowName()
    ensures var plain := Definition("posts-list", "", false, true, 1, 1);
            var alias := Definition("mcp.posts.list", "posts-list", true, true, 1, 2);
            var x := Replay(EMPTY_INDEX, [Register(plain), RegisterOrReplace(alias)]);
            "posts-list" in x.tools && x.tools["posts-list"] == plain && Lookup(x, ManifestKey(plain)) == Some(alias)
  {
    var plain := Definition("posts-list", "", false, true, 1, 1);
    var alias := Definition("mcp.posts.list", "posts-list", true, true, 1, 2);
    var acts := [Register(plain), RegisterOrReplace(alias)];
    assert plain.name != alias.name by { assert plain.name[0] != alias.name[0]; }
    var first := Perform(EMPTY_INDEX, Register(plain));
    assert first == Index(map["posts-list" := plain], map[]);
    var second := Perform(first, RegisterOrReplace(alias));
    assert acts[1..] == [RegisterOrReplace(alias)] && acts[1..][1..] == [];
    assert Replay(second, []) == second;
    assert Replay(first, [RegisterOrReplace(alias)]) == second;
    assert Replay(EMPTY_INDEX, acts) == second;
  }

  // ----- safe capability names -----

  predicate SafeChar(c: char) {
    'A' <= c <= 'Z' || 'a' <= c <= 'z' || '0' <= c <= '9' || c == '_' || c == '-'
  }

  lemma NumeralIff(c: char)
    ensures c in "0123456789" <==> '0' <= c <= '9'
  {
    if '0' <= c <= '9' {
      assert "0123456789"[c as int - '0' as int] == c;
    }
  }

  /** The safe characters are the letters and digits, the underscore and the dash. */
  lemma SafeCharIff(c: char)
    ensures SafeChar(c) <==> c in CAPITALS || c in SMALLS || c in "0123456789" || c == '_' || c == '-'
  {
    CapitalIff(c);
    SmallIff(c);
    NumeralIff(c);
  }

  /** Every run of unsafe characters becomes one dash; `inRun` says that one was just written. */
  function Collapse(s: string, inRun: bool): (r: string)
    ensures forall i :: 0 <= i < |r| ==> SafeChar(r[i])
    ensures |r| <= |s|
  {
    if s == "" then ""
    else if SafeChar(s[0]) then [s[0]] + Collapse(s[1..], false)
    else if inRun then Collapse(s[1..], true)
    else "-" + Collapse(s[1..], true)
  }

  predicate Edge(c: char) { c == '-' || c == '_' }

  function TrimRight(s: string): (r: string)
    ensures |r| <= |s| && r == s[..|r|]
    ensures r != "" ==> !Edge(r[|r| - 1])
    ensures s != "" && !Edge(s[0]) ==> r != ""
  {
    if s != "" && Edge(s[|s| - 1]) then TrimRight(s[..|s| - 1]) else s
  }

  function TrimLeft(s: string): (r: string)
    ensures |r| <= |s| && r == s[|s| - |r|..]
    ensures r != "" ==> !Edge(r[0])
  {
    if s != "" && Edge(s[0]) then TrimLeft(s[1..]) else s
  }

  /** The text with its unsafe runs as dashes and without edges, or `tool` if nothing is left. */
  function Normal(text: string): string {
    var stripped := TrimRight(TrimLeft(Collapse(text, false)));
    if stripped == "" then "tool" else stripped
  }

  function Base(namespace: string, providerName: string): string {
    Normal(namespace + "-" + providerName)
  }

  /** `safe_capability_name`; `digest` is the first ten hexadecimal digits of the name's hash. */
  function SafeCapabilityName(namespace: string, providerName: string, digest: string): string {
    var base := Base(namespace, providerName);
    if |base| <= 64 then base else TrimRight(base[..53]) + "-" + digest
  }

  ghost predicate HexDigest(digest: string) {
    |digest| == 10 && forall i :: 0 <= i < 10 ==> '0' <= digest[i] <= '9' || 'a' <= digest[i] <= 'f'
  }

  lemma BaseIsSafe(namespace: string, providerName: string)
    ensures var base := Base(namespace, providerName);
            base != "" && !Edge(base[0]) && !Edge(base[|base| - 1]) && forall i :: 0 <= i < |base| ==> SafeChar(base[i])
  {
    var text := Collapse(namespace + "-" + providerName, false);
    TrimLeftIsSafe(text);
    TrimRightIsSafe(TrimLeft(text));
  }

  lemma {:induction false} TrimLeftIsSafe(text: string)
    requires forall i :: 0 <= i < |text| ==> SafeChar(text[i])
    ensures forall i :: 0 <= i < |TrimLeft(text)| ==> SafeChar(TrimLeft(text)[i])
  {
    if text != "" && Edge(text[0]) {
      TrimLeftIsSafe(text[1..]);
    }
  }

  lemma {:induction false} TrimRightIsSafe(text: string)
    requires forall i :: 0 <= i < |text| ==> SafeChar(text[i])
    ensures forall i :: 0 <= i < |TrimRight(text)| ==> SafeChar(TrimRight(text)[i])
    ensures TrimRight(text) != "" ==> TrimRight(text)[0] == text[0]
  {
    if text != "" && Edge(text[|text| - 1]) {
      TrimRightIsSafe(text[..|text| - 1]);
    }
  }

  /** A public name has between one and 64 safe characters and starts with none of `-` and `_`; above
      all it has no dot, so it can never equal a dotted tool name. */
  lemma SafeNamesAreSafe(namespace: string, providerName: string, digest: string)
    requires HexDigest(digest)
    ensures var name := SafeCapabilityName(namespace, providerName, digest);
            && 1 <= |name| <= 64
            && (forall i :: 0 <= i < |name| ==> SafeChar(name[i]))
            && !Edge(name[0]) && '.' !in name
  {
    var base := Base(namespace, providerName);
    BaseIsSafe(namespace, providerName);
    if |base| > 64 {
      TruncatedIsSafe(base, digest);
    }
    SafeTextHasNoDot(SafeCapabilityName(namespace, providerName, digest));
  }

  lemma SafeTextHasNoDot(name: string)
    requires forall i :: 0 <= i < |name| ==> SafeChar(name[i])
    ensures '.' !in name
  {
  }

  lemma TruncatedIsSafe(base: string, digest: string)
    requires |base| > 64 && HexDigest(digest) && !Edge(base[0]) && forall i :: 0 <= i < |base| ==> SafeChar(base[i])
    ensures var name := TrimRight(base[..53]) + "-" + digest;
            && 1 <= |name| <= 64
            && (forall i :: 0 <= i < |name| ==> SafeChar(name[i]))
            && !Edge(name[0])
  {
    var front := base[..53];
    var head := TrimRight(front);
    assert head == front[..|head|];
    assert head[0] == base[0];
    forall i | 0 <= i < |head| ensures SafeChar(head[i]) {
      assert head[i] == base[i];
    }
    SafeTextsJoin(head, "-");
    SafeTextsJoin(head + "-", digest);
  }

  lemma SafeTextsJoin(a: string, b: string)
    requires forall i :: 0 <= i < |a| ==> SafeChar(a[i])
    requires forall i :: 0 <= i < |b| ==> SafeChar(b[i])
    ensures forall i :: 0 <= i < |a + b| ==> SafeChar((a + b)[i])
  {
  }

  lemma {:induction false} SafeTextIsKept(s: string)
    requires forall i :: 0 <= i < |s| ==> SafeChar(s[i])
    ensures Collapse(s, false) == s
    decreases |s|
  {
    if s != "" {
      SafeTextIsKept(s[1..]);
      assert s == [s[0]] + s[1..];
    }
  }

  /** A short name that is safe already is the text of its parts, unchanged. */
  lemma SafeNamesAreKept(namespace: string, providerName: string, digest: string)
    requires var text := namespace + "-" + providerName;
             && (forall i :: 0 <= i < |text| ==> SafeChar(text[i]))
             && |text| <= 64 && !Edge(text[0]) && !Edge(text[|text| - 1])
    ensures SafeCapabilityName(namespace, providerName, digest) == namespace + "-" + providerName
  {
    SafeTextIsKept(namespace + "-" + providerName);
  }

  lemma {:induction false} UnsafeCharsAreAlike(a: string, c: char, d: char, b: string, inRun: bool)
    requires !SafeChar(c) && !SafeChar(d)
    ensures Collapse(a + [c] + b, inRun) == Collapse(a + [d] + b, inRun)
    decreases |a|
  {
    var s, t := a + [c] + b, a + [d] + b;
    if a == "" {
      assert s[1..] == b && t[1..] == b;
    } else {
      assert s[0] == a[0] && t[0] == a[0];
      assert s[1..] == a[1..] + [c] + b && t[1..] == a[1..] + [d] + b;
      UnsafeCharsAreAlike(a[1..], c, d, b, false);
      UnsafeCharsAreAlike(a[1..], c, d, b, true);
    }
  }

  lemma JoinedName(namespace: string, a: string, c: char, b: string)
    ensures namespace + "-" + (a + [c] + b) == (namespace + "-" + a) + [c] + b
  {
  }

  /** Short public names are not unique: exchanging one unsafe character for another changes nothing. */
  lemma ShortNamesCollide(namespace: string, a: string, c: char, d: char, b: string, digest: string, other: string)
    requires !SafeChar(c) && !SafeChar(d) && |Base(namespace, a + [c] + b)| <= 64
    ensures SafeCapabilityName(namespace, a + [c] + b, digest) == SafeCapabilityName(namespace, a + [d] + b, other)
  {
    JoinedName(namespace, a, c, b);
    JoinedName(namespace, a, d, b);
    UnsafeCharsAreAlike(namespace + "-" + a, c, d, b, false);
  }

  // ----- exactly when two tools get the same public name -----

  predicate UnsafeRun(piece: string) {
    piece != "" && forall i :: 0 <= i < |piece| ==> !SafeChar(piece[i])
  }

  predicate SafePiece(piece: string) {
    |piece| == 1 && SafeChar(piece[0])
  }

  function Joined(pieces: seq<string>): string {
    if pieces == [] then "" else pieces[0] + Joined(pieces[1..])
  }

  /** The text cut into single safe characters and maximal runs of unsafe ones. */
  ghost predicate Cuts(text: string, pieces: seq<string>) {
    && Joined(pieces) == text
    && (forall i :: 0 <= i < |pieces| ==> SafePiece(pieces[i]) || UnsafeRun(pieces[i]))
    && (forall i :: 0 < i < |pieces| ==> !(UnsafeRun(pieces[i - 1]) && UnsafeRun(pieces[i])))
  }

  /** How a piece shows in a name. */
  function Face(piece: string): char {
    if piece != "" && SafeChar(piece[0]) then piece[0] else '-'
  }

  function Faces(pieces: seq<string>): (r: string)
    ensures |r| == |pieces|
  {
    seq(|pieces|, i requires 0 <= i < |pieces| => Face(pieces[i]))
  }

  function DropLeft(pieces: seq<string>): seq<string> {
    if pieces != [] && Edge(Face(pieces[0])) then DropLeft(pieces[1..]) else pieces
  }

  function DropRight(pieces: seq<string>): seq<string> {
    if pieces != [] && Edge(Face(pieces[|pieces| - 1])) then DropRight(pieces[..|pieces| - 1]) else pieces
  }

  /** What is left of the pieces without the dashes, underscores and unsafe runs at both ends. */
  function Inner(pieces: seq<string>): seq<string> {
    DropRight(DropLeft(pieces))
  }

  /** Two pieces show alike: the same safe character, or each a dash or an unsafe run. */
  predicate Alike(p: string, q: string) {
    p == q || (Face(p) == '-' && Face(q) == '-')
  }

  predicate AllAlike(a: seq<string>, b: seq<string>) {
    |a| == |b| && forall i :: 0 <= i < |a| ==> Alike(a[i], b[i])
  }

  const TOOL := ["t", "o", "o", "l"]

  /** A text with nothing inside counts as the text `tool`. */
  function Inside(pieces: seq<string>): seq<string> {
    if Inner(pieces) == [] then TOOL else Inner(pieces)
  }

  lemma CutsExist(text: string) returns (pieces: seq<string>)
    ensures Cuts(text, pieces)
    decreases |text|
  {
    if text == "" {
      pieces := [];
    } else {
      var rest := CutsExist(text[1..]);
      var head := [text[0]];
      assert text == head + text[1..];
      if !SafeChar(text[0]) && rest != [] && UnsafeRun(rest[0]) {
        pieces := [head + rest[0]] + rest[1..];
        assert pieces[1..] == rest[1..];
        assert head + (rest[0] + Joined(rest[1..])) == (head + rest[0]) + Joined(rest[1..]);
      } else {
        pieces := [head] + rest;
        assert pieces[1..] == rest;
      }
    }
  }

  lemma {:induction false} SkipRun(run: string, text: string)
    requires forall i :: 0 <= i < |run| ==> !SafeChar(run[i])
    ensures Collapse(run + text, true) == Collapse(text, true)
    decreases |run|
  {
    if run == "" {
      assert run + text == text;
    } else {
      SkipRun(run[1..], text);
      assert (run + text)[1..] == run[1..] + text;
    }
  }

  /** The name shows one character for every piece. */
  lemma {:induction false} CollapseShowsFaces(text: string, pieces: seq<string>, inRun: bool)
    requires Cuts(text, pieces) && (inRun ==> pieces == [] || SafePiece(pieces[0]))
    ensures Collapse(text, inRun) == Faces(pieces)
    decreases |pieces|
  {
    if pieces != [] {
      var piece, rest := pieces[0], pieces[1..];
      var tail := Joined(rest);
      assert Cuts(tail, rest);
      assert Faces(pieces) == [Face(piece)] + Faces(rest);
      if SafePiece(piece) {
        CollapseShowsFaces(tail, rest, false);
        assert text[1..] == tail && text[0] == piece[0];
      } else {
        assert rest != [] ==> !UnsafeRun(rest[0]) by { if rest != [] { assert rest[0] == pieces[1]; } }
        CollapseShowsFaces(tail, rest, true);
        assert text[0] == piece[0] && text[1..] == piece[1..] + tail;
        SkipRun(piece[1..], tail);
      }
    }
  }

  lemma {:induction false} DropLeftShows(pieces: seq<string>)
    ensures TrimLeft(Faces(pieces)) == Faces(DropLeft(pieces))
    decreases |pieces|
  {
    if pieces != [] {
      DropLeftShows(pieces[1..]);
      assert Faces(pieces)[1..] == Faces(pieces[1..]);
    }
  }

  lemma {:induction false} DropRightShows(pieces: seq<string>)
    ensures TrimRight(Faces(pieces)) == Faces(DropRight(pieces))
    decreases |pieces|
  {
    if pieces != [] {
      DropRightShows(pieces[..|pieces| - 1]);
      assert Faces(pieces)[..|pieces| - 1] == Faces(pieces[..|pieces| - 1]);
    }
  }

  lemma ToolShows()
    ensures Faces(TOOL) == "tool"
  {
  }

  lemma {:induction false} NormalShowsInside(text: string, pieces: seq<string>)
    requires Cuts(text, pieces)
    ensures Normal(text) == Faces(Inside(pieces))
  {
    CollapseShowsFaces(text, pieces, false);
    DropLeftShows(pieces);
    DropRightShows(DropLeft(pieces));
    var inner := Inner(pieces);
    assert TrimRight(TrimLeft(Collapse(text, false))) == Faces(inner);
    ToolShows();
  }

  lemma {:induction false} DropsKeepPieces(pieces: seq<string>)
    requires forall i :: 0 <= i < |pieces| ==> SafePiece(pieces[i]) || UnsafeRun(pieces[i])
    ensures forall i :: 0 <= i < |DropLeft(pieces)| ==> SafePiece(DropLeft(pieces)[i]) || UnsafeRun(DropLeft(pieces)[i])
    ensures forall i :: 0 <= i < |DropRight(pieces)| ==>
              SafePiece(DropRight(pieces)[i]) || UnsafeRun(DropRight(pieces)[i])
    decreases |pieces|
  {
    if pieces != [] {
      DropsKeepPieces(pieces[1..]);
      DropsKeepPieces(pieces[..|pieces| - 1]);
    }
  }

  lemma SameFacesIff(a: seq<string>, b: seq<string>)
    requires forall i :: 0 <= i < |a| ==> SafePiece(a[i]) || UnsafeRun(a[i])
    requires forall i :: 0 <= i < |b| ==> SafePiece(b[i]) || UnsafeRun(b[i])
    ensures Faces(a) == Faces(b) <==> AllAlike(a, b)
  {
    if Faces(a) == Faces(b) {
      forall i | 0 <= i < |a| ensures Alike(a[i], b[i]) {
        assert Faces(a)[i] == Faces(b)[i];
      }
    }
  }

  lemma InsideHasPieces(text: string, pieces: seq<string>)
    requires Cuts(text, pieces)
    ensures forall i :: 0 <= i < |Inside(pieces)| ==> SafePiece(Inside(pieces)[i]) || UnsafeRun(Inside(pieces)[i])
  {
    DropsKeepPieces(pieces);
    DropsKeepPieces(DropLeft(pieces));
    assert forall i :: 0 <= i < |TOOL| ==> SafePiece(TOOL[i]);
  }

  /** Cut both texts, namespace, dash and name, into safe characters and runs of unsafe ones, and drop what is dash,
      underscore or unsafe at the ends. Short public names are equal exactly when what is left pairs up: the same safe
      character, or dashes and unsafe runs; nothing left counts as `tool`. */
  lemma ShortNamesCollideIff(namespace: string, providerName: string, digest: string, xs: seq<string>,
                             namespace': string, providerName': string, digest': string, ys: seq<string>)
    requires Cuts(namespace + "-" + providerName, xs) && Cuts(namespace' + "-" + providerName', ys)
    requires |Inside(xs)| <= 64 && |Inside(ys)| <= 64
    ensures SafeCapabilityName(namespace, providerName, digest) ==
            SafeCapabilityName(namespace', providerName', digest')
       <==> AllAlike(Inside(xs), Inside(ys))
  {
    NormalShowsInside(namespace + "-" + providerName, xs);
    NormalShowsInside(namespace' + "-" + providerName', ys);
    InsideHasPieces(namespace + "-" + providerName, xs);
    InsideHasPieces(namespace' + "-" + providerName', ys);
    SameFacesIff(Inside(xs), Inside(ys));
  }

  lemma SameEnding(a: string, b: string, digest: string, digest': string)
    requires |digest| == |digest'|
    ensures a + "-" + digest == b + "-" + digest' <==> a == b && digest == digest'
  {
    var x, y := a + "-" + digest, b + "-" + digest';
    if x == y {
      assert |a| == |b| by { assert |x| == |a| + 1 + |digest| && |y| == |b| + 1 + |digest'|; }
      assert x[..|a|] == a && y[..|b|] == b;
      assert x[|a| + 1..] == digest && y[|b| + 1..] == digest';
    }
  }

  /** Long public names are equal exactly when their digests and their shortened texts are. */
  lemma LongNamesCollideIff(namespace: string, providerName: string, digest: string,
                            namespace': string, providerName': string, digest': string)
    requires |Base(namespace, providerName)| > 64 && |Base(namespace', providerName')| > 64
    requires HexDigest(digest) && HexDigest(digest')
    ensures SafeCapabilityName(namespace, providerName, digest) ==
            SafeCapabilityName(namespace', providerName', digest')
       <==>
           && digest == digest'
           && TrimRight(Base(namespace, providerName)[..53]) == TrimRight(Base(namespace', providerName')[..53])
  {
    var head, head' := TrimRight(Base(namespace, providerName)[..53]), TrimRight(Base(namespace', providerName')[..53]);
    SameEnding(head, head', digest, digest');
  }

  /** A short name meets every long one: its shortened text as namespace with its digest as name. */
  lemma ShortMeetsLong(namespace: string, providerName: string, digest: string, digest': string)
    requires |Base(namespace, providerName)| > 64 && HexDigest(digest)
    ensures var head := TrimRight(Base(namespace, providerName)[..53]);
            |Base(head, digest)| <= 64 &&
            SafeCapabilityName(head, digest, digest') == SafeCapabilityName(namespace, providerName, digest)
  {
    var base := Base(namespace, providerName);
    var head := TrimRight(base[..53]);
    BaseIsSafe(namespace, providerName);
    TruncatedIsSafe(base, digest);
    var name := head + "-" + digest;
    assert name[|name| - 1] == digest[9];
    SafeTextIsKept(name);
    SafeNamesAreKept(head, digest, digest');
  }

  /** A text cut into its characters. */
  function Singles(text: string): seq<string> {
    seq(|text|, i requires 0 <= i < |text| => [text[i]])
  }

  /** What a long name keeps: 53 pieces less the dashes, underscores and unsafe runs at their end, then a dash and the
      digest. */
  function Kept(pieces: seq<string>, digest: string): seq<string>
    requires |pieces| >= 53
  {
    DropRight(pieces[..53]) + ["-"] + Singles(digest)
  }

  lemma SinglesShow(text: string)
    requires forall i :: 0 <= i < |text| ==> SafeChar(text[i])
    ensures Faces(Singles(text)) == text
    ensures forall i :: 0 <= i < |text| ==> SafePiece(Singles(text)[i])
  {
  }

  lemma FacesJoin(a: seq<string>, b: seq<string>)
    ensures Faces(a + b) == Faces(a) + Faces(b)
  {
  }

  lemma KeptShows(pieces: seq<string>, digest: string)
    requires |pieces| >= 53 && HexDigest(digest)
    requires forall i :: 0 <= i < |pieces| ==> SafePiece(pieces[i]) || UnsafeRun(pieces[i])
    ensures Faces(Kept(pieces, digest)) == TrimRight(Faces(pieces)[..53]) + "-" + digest
    ensures forall p :: p in Kept(pieces, digest) ==> SafePiece(p) || UnsafeRun(p)
  {
    assert Faces(pieces)[..53] == Faces(pieces[..53]);
    DropRightShows(pieces[..53]);
    SinglesShow(digest);
    SinglesShow("-");
    FacesJoin(DropRight(pieces[..53]), Singles("-"));
    FacesJoin(DropRight(pieces[..53]) + Singles("-"), Singles(digest));
    DropsKeepPieces(pieces[..53]);
  }

  /** A short public name equals a long one exactly when the short one's pieces pair up with what the long one keeps. */
  lemma ShortMeetsLongIff(namespace: string, providerName: string, digest: string, xs: seq<string>,
                          namespace': string, providerName': string, digest': string, ys: seq<string>)
    requires Cuts(namespace + "-" + providerName, xs) && Cuts(namespace' + "-" + providerName', ys)
    requires |Inside(xs)| <= 64 < |Inside(ys)| && HexDigest(digest')
    ensures SafeCapabilityName(namespace, providerName, digest) ==
            SafeCapabilityName(namespace', providerName', digest')
       <==> AllAlike(Inside(xs), Kept(Inside(ys), digest'))
  {
    NormalShowsInside(namespace + "-" + providerName, xs);
    NormalShowsInside(namespace' + "-" + providerName', ys);
    InsideHasPieces(namespace + "-" + providerName, xs);
    InsideHasPieces(namespace' + "-" + providerName', ys);
    KeptShows(Inside(ys), digest');
    SameFacesIff(Inside(xs), Kept(Inside(ys), digest'));
  }

  /** The dash between namespace and name does not separate them. */
  lemma SeparatorIsAmbiguous(digest: string, digest': string)
    ensures SafeCapabilityName("a", "b-c", digest) == SafeCapabilityName("a-b", "c", digest') == "a-b-c"
  {
    assert "a" + "-" + "b-c" == "a-b-c" && "a-b" + "-" + "c" == "a-b-c";
    SafeNamesAreKept("a", "b-c", digest);
    SafeNamesAreKept("a-b", "c", digest');
  }

  lemma NothingDropped(pieces: seq<string>)
    requires pieces != [] && !Edge(Face(pieces[0])) && !Edge(Face(pieces[|pieces| - 1]))
    ensures Inside(pieces) == pieces
  {
  }

  function Dotted(dots: string): seq<string> {
    ["a", "-", "b", dots, "c"]
  }

  lemma DottedJoins(dots: string)
    ensures Joined(Dotted(dots)) == "a" + "-" + ("b" + dots + "c")
  {
    JoinFive("a", "-", "b", dots, "c");
    Regrouped("a", "-", "b", dots, "c");
  }

  lemma Regrouped(a: string, b: string, c: string, d: string, e: string)
    ensures a + b + c + d + e == a + b + (c + d + e)
  {
  }

  lemma DottedCuts(dots: string)
    requires UnsafeRun(dots)
    ensures Cuts("a" + "-" + ("b" + dots + "c"), Dotted(dots)) && Inside(Dotted(dots)) == Dotted(dots)
  {
    DottedJoins(dots);
    NothingDropped(Dotted(dots));
    forall i | 0 <= i < 5 && i != 3 ensures SafePiece(Dotted(dots)[i]) && !UnsafeRun(Dotted(dots)[i]) {
    }
  }

  lemma DotsAreAlike(dots: string, more: string, digest: string, digest': string)
    requires UnsafeRun(dots) && UnsafeRun(more)
    ensures SafeCapabilityName("a", "b" + dots + "c", digest) == SafeCapabilityName("a", "b" + more + "c", digest')
  {
    DottedCuts(dots);
    DottedCuts(more);
    assert Alike(dots, more);
    assert AllAlike(Dotted(dots), Dotted(more));
    ShortNamesCollideIff("a", "b" + dots + "c", digest, Dotted(dots), "a", "b" + more + "c", digest', Dotted(more));
  }

  lemma DottedTexts()
    ensures "b" + "." + "c" == "b.c" && "b" + ".." + "c" == "b..c"
  {
  }

  /** A dot and a run of dots show like a dash. */
  lemma DotsCollide(digest: string, digest': string)
    ensures SafeCapabilityName("a", "b.c", digest) == SafeCapabilityName("a", "b..c", digest')
  {
    DotsAreAlike(".", "..", digest, digest');
    DottedTexts();
  }

  lemma JoinFive(a: string, b: string, c: string, d: string, e: string)
    ensures Joined([a, b, c, d, e]) == a + b + c + d + e
  {
    assert [a, b, c, d, e][1..] == [b, c, d, e] && [b, c, d, e][1..] == [c, d, e] && [c, d, e][1..] == [d, e];
    assert [d, e][1..] == [e] && [e][1..] == [];
    assert Joined([e]) == e;
    assert Joined([d, e]) == d + e;
    assert Joined([c, d, e]) == c + (d + e);
    assert Joined([b, c, d, e]) == b + (c + (d + e));
    assert a + (b + (c + (d + e))) == a + b + c + d + e;
  }

  /** Of two tools with the same public name only the first is registered, in either way of registering. */
  lemma SecondAliasRefused(x: Index, first: Definition, second: Definition)
    requires RegisterRefusal(x, first).None? && first.safeName != ""
    requires second.safeName == first.safeName && second.name != first.name && 1 <= |second.name| <= 160
    ensures var y := Perform(x, Register(first));
            && RegisterRefusal(y, second) == Some(Duplicate) && Perform(y, Register(second)) == y
            && ReplaceRefusal(y, second) == Some(Duplicate) && Perform(y, RegisterOrReplace(second)) == y
  {
  }

  /** If every alias is a safe capability name and every tool without an alias has a dotted name, every
      manifest key resolves to the definition that produced it. */
  lemma DottedNamesAlwaysResolve(x: Index, n: string)
    requires Agrees(x) && n in x.tools
    requires forall m :: m in x.tools && x.tools[m].safeName == "" ==> '.' in m
    requires forall a :: a in x.aliases ==>
               exists namespace, provider, digest ::
                 HexDigest(digest) && a == SafeCapabilityName(namespace, provider, digest)
    ensures Lookup(x, ManifestKey(x.tools[n])) == Some(x.tools[n])
  {
    ManifestKeyResolvesIff(x, n);
    if x.tools[n].safeName == "" && n in x.aliases {
      var namespace, provider, digest :| HexDigest(digest) && n == SafeCapabilityName(namespace, provider, digest);
      SafeNamesAreSafe(namespace, provider, digest);
    }
  }

  class Registry {
    var tools: map<string, Definition>
    var aliases: map<string, string>

    constructor ()
      ensures View() == EMPTY_INDEX
    {
      tools, aliases := map[], map[];
    }

    function View(): Index
      reads this
    {
      Index(tools, aliases)
    }

    method Register(d: Definition) returns (r: Result<Definition, RegistryError>)
      modifies this
      ensures View() == Perform(old(View()), Action.Register(d))
      ensures r == match RegisterRefusal(old(View()), d) case Some(e) => Failure(e) case None => Success(d)
    {
      if d.name == "" || |d.name| > MAX_NAME {
        return Failure(InvalidName);
      }
      if d.name in tools {
        return Failure(Duplicate);
      }
      if d.safeName != "" && d.safeName in aliases {
        return Failure(Duplicate);
      }
      if !d.timeoutPositive || d.maxRetries !in {0, 1} {
        return Failure(InvalidPolicy);
      }
      tools := tools[d.name := d];
      if d.safeName != "" {
        aliases := aliases[d.safeName := d.name];
      }
      return Success(d);
    }

    method RegisterOrReplace(d: Definition) returns (r: Result<Definition, RegistryError>)
      modifies this
      ensures View() == Perform(old(View()), Action.RegisterOrReplace(d))
      ensures r == match ReplaceRefusal(old(View()), d) case Some(e) => Failure(e) case None => Success(d)
    {
      var existing := if d.name in tools then Some(tools[d.name]) else None;
      if existing.Some? && !existing.value.isMcp {
        return Failure(Duplicate);
      }
      if d.name == "" || |d.name| > MAX_NAME {
        return Failure(InvalidName);
      }
      if d.safeName != "" && d.safeName in aliases && aliases[d.safeName] != d.name {
        return Failure(Duplicate);
      }
      tools := tools[d.name := d];
      if existing.Some? && existing.value.safeName != "" {
        aliases := aliases - {existing.value.safeName};
      }
      if d.safeName != "" {
        aliases := aliases[d.safeName := d.name];
      }
      return Success(d);
    }

    method Get(name: string) returns (r: Result<Definition, RegistryError>)
      ensures r == match Lookup(View(), name) case Some(d) => Success(d) case None => Failure(Unknown)
    {
      var key := if name in aliases then aliases[name] else name;
      if key !in tools {
        return Failure(Unknown);
      }
      return Success(tools[key]);
    }
  }
}
