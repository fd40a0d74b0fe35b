/**
 The `msg!` macro: a match over an envelope whose arms name message types is regrouped by type
 into a chain of type tests, each followed by an ordinary match over the unpacked message.

 Arms keep their order inside a group, an or-pattern is split over the groups of its cases
 (which a hash map hands out in no particular order), and patterns that merely name the type
 are rewritten so that the ordinary match accepts them. The theorems compare the chain with
 reading the arms from top to bottom.
 */
module MsgMacro {
  import opened Prelude

  /** An identifier; `capital` says whether its first character is uppercase. */
  datatype Ident = Ident(text: string, capital: bool)

  type Path = seq<Ident>

  /** What a pattern says about the fields of a struct or a variant. */
  type Fields = nat

  datatype Pat =
    | Wild
    | Binding(name: Ident, sub: Option<Pat>)
    | PathPat(path: Path)
    | Struct(path: Path, fields: Fields)
    | TupleStruct(path: Path, fields: Fields)
    | Tuple(elems: seq<Pat>)
    | OrPat(cases: seq<Pat>)
    | Reference(pat: Pat)
    | Hidden(pat: Pat)   // parentheses and macros, with the pattern they stand for
    | Forbidden          // literals, ranges, rests, slices, ascriptions: no message is one

  datatype GroupKind = Regular(path: Path) | Request(path: Path) | WildGroup

  datatype Arm = Arm(pat: Pat, id: nat)

  datatype MessageGroup = MessageGroup(kind: GroupKind, arms: seq<Arm>)

  // === Which type a pattern is about ===

  /** Drops the variant of `some::Enum::Variant`; the enum must be capitalised. */
  function TypePath(path: Path): Path {
    if |path| >= 2 && path[|path| - 2].capital then path[..|path| - 1] else path
  }

  function ExtractKind(pat: Pat): Option<GroupKind>
    decreases pat, 1
  {
    match pat
    case Binding(name, sub) =>
      if sub.Some? then ExtractKind(sub.value)
      else if name.capital then Some(Regular([name]))
      else Some(WildGroup)
    case OrPat(cases) => FirstKind(cases, 0)
    case PathPat(path) => Some(Regular(TypePath(path)))
    case Reference(p) => ExtractKind(p)
    case Struct(path, _) => Some(Regular(TypePath(path)))
    case TupleStruct(path, _) => Some(Regular(TypePath(path)))
    case Tuple(elems) =>
      if |elems| != 2 || !elems[1].Binding? then None
      else
        var kind := ExtractKind(elems[0]);
        if kind.Some? && kind.value.Regular? then Some(Request(kind.value.path)) else None
    case Wild => Some(WildGroup)
    case Hidden(_) => None
    case Forbidden => None
  }

  /** The kind of the first case that has one. */
  function FirstKind(cases: seq<Pat>, i: nat): Option<GroupKind>
    requires i <= |cases|
    decreases cases, 0, |cases| - i
  {
    if i == |cases| then None
    else
      var kind := ExtractKind(cases[i]);
      if kind.Some? then kind else FirstKind(cases, i + 1)
  }

  lemma {:induction false} FirstKindIsOneOfThem(cases: seq<Pat>, i: nat) returns (j: nat)
    requires i <= |cases| && FirstKind(cases, i).Some?
    ensures j < |cases| && ExtractKind(cases[j]) == FirstKind(cases, i)
    decreases |cases| - i
  {
    if ExtractKind(cases[i]).Some? {
      j := i;
    } else {
      j := FirstKindIsOneOfThem(cases, i + 1);
    }
  }

  /** Extracting the kind may report a token that is marked as unused and go on. */
  predicate Reports(pat: Pat)
    decreases pat, 1
  {
    match pat
    case Binding(_, sub) => sub.Some? && Reports(sub.value)
    case OrPat(cases) => FirstReports(cases, 0)
    case Reference(p) => Reports(p)
    case Tuple(elems) => |elems| == 2 && elems[1].Binding? && ("_" <= elems[1].name.text || Reports(elems[0]))
    case _ => false
  }

  /** The cases are looked at up to the first that has a kind. */
  predicate FirstReports(cases: seq<Pat>, i: nat)
    requires i <= |cases|
    decreases cases, 0, |cases| - i
  {
    i < |cases| && (Reports(cases[i]) || (ExtractKind(cases[i]).None? && FirstReports(cases, i + 1)))
  }

  /** Something about the pattern is reported, which fails the compilation. */
  predicate Faulty(pat: Pat) {
    ExtractKind(pat).None? || Reports(pat)
  }

  predicate IsLikelyType(pat: Pat) {
    match pat
    case Binding(name, None) => name.capital
    case PathPat(path) => TypePath(path) == path
    case _ => false
  }

  predicate IsBindingWithType(pat: Pat) {
    pat.Binding? && pat.sub.Some? && IsLikelyType(pat.sub.value)
  }

  function RefineInner(pat: Pat): Pat {
    if IsBindingWithType(pat) then Binding(pat.name, None)
    else if IsLikelyType(pat) then Wild
    else pat
  }

  /** Removes bare type names, which an ordinary match would not accept. */
  function Refine(pat: Pat): Pat {
    if pat.Tuple? && |pat.elems| == 2 then Tuple([RefineInner(pat.elems[0]), pat.elems[1]]) else RefineInner(pat)
  }

  // === Grouping ===

  function Alternatives(pat: Pat): seq<Pat> {
    if pat.OrPat? then pat.cases else [pat]
  }

  /** The refined alternatives of one kind. */
  function Chosen(alternatives: seq<Pat>, kind: GroupKind): seq<Pat> {
    if alternatives == [] then []
    else
      var last := alternatives[|alternatives| - 1];
      Chosen(alternatives[..|alternatives| - 1], kind) + if ExtractKind(last) == Some(kind) then [Refine(last)] else []
  }

  function Rebuilt(arm: Arm, chosen: seq<Pat>): Arm
    requires chosen != []
  {
    arm.(pat := if arm.pat.OrPat? then OrPat(chosen) else chosen[0])
  }

  /** What is left of an arm in the group of a kind. */
  function Piece(arm: Arm, kind: GroupKind): seq<Arm> {
    var chosen := Chosen(Alternatives(arm.pat), kind);
    if chosen == [] then [] else [Rebuilt(arm, chosen)]
  }

  /** The arms of a group, in the order of the source. */
  function Projection(arms: seq<Arm>, kind: GroupKind): seq<Arm> {
    if arms == [] then []
    else Projection(arms[..|arms| - 1], kind) + Piece(arms[|arms| - 1], kind)
  }

  /** The groups are the projections of the arms, each once; their order is left open. */
  ghost predicate Grouped(groups: seq<MessageGroup>, arms: seq<Arm>) {
    && (forall g :: 0 <= g < |groups| ==> groups[g].arms == Projection(arms, groups[g].kind) && groups[g].arms != [])
    && (forall g, h :: 0 <= g < h < |groups| ==> groups[g].kind != groups[h].kind)
    && (forall kind :: Projection(arms, kind) != [] ==> exists g :: 0 <= g < |groups| && groups[g].kind == kind)
  }

  predicate HasKind(alternatives: seq<Pat>, kind: GroupKind) {
    exists i :: 0 <= i < |alternatives| && ExtractKind(alternatives[i]) == Some(kind)
  }

  predicate NoErrors(pat: Pat) {
    forall i :: 0 <= i < |Alternatives(pat)| ==> !Faulty(Alternatives(pat)[i])
  }

  lemma {:induction false} ChosenIffHasKind(alternatives: seq<Pat>, kind: GroupKind)
    ensures Chosen(alternatives, kind) != [] <==> HasKind(alternatives, kind)
  {
    if alternatives != [] {
      var n := |alternatives| - 1;
      ChosenIffHasKind(alternatives[..n], kind);
      if HasKind(alternatives[..n], kind) {
        var i :| 0 <= i < n && ExtractKind(alternatives[..n][i]) == Some(kind);
        assert ExtractKind(alternatives[i]) == Some(kind);
      }
      if HasKind(alternatives, kind) && ExtractKind(alternatives[n]) != Some(kind) {
        var i :| 0 <= i < |alternatives| && ExtractKind(alternatives[i]) == Some(kind);
        assert alternatives[..n][i] == alternatives[i];
      }
    }
  }

  /** Appends an arm to the group of its kind, or opens a new group. */
  method AddToGroup(groups: seq<MessageGroup>, kind: GroupKind, arm: Arm) returns (groups': seq<MessageGroup>)
    requires forall g, h :: 0 <= g < h < |groups| ==> groups[g].kind != groups[h].kind
    ensures Added(groups, groups', kind, arm)
  {
    var i := 0;
    while i < |groups| && groups[i].kind != kind
      invariant 0 <= i <= |groups|
      invariant forall g :: 0 <= g < i ==> groups[g].kind != kind
    {
      i := i + 1;
    }
    if i < |groups| {
      groups' := groups[i := groups[i].(arms := groups[i].arms + [arm])];
    } else {
      groups' := groups + [MessageGroup(kind, [arm])];
    }
  }

  /** While the pieces of one arm are handed out: `done` are the kinds that got theirs. */
  ghost predicate PartlyGrouped(groups: seq<MessageGroup>, arms: seq<Arm>, arm: Arm, done: set<GroupKind>) {
    && (forall g :: 0 <= g < |groups| ==>
          && groups[g].arms == Projection(arms, groups[g].kind)
                               + (if groups[g].kind in done then Piece(arm, groups[g].kind) else [])
          && groups[g].arms != [])
    && (forall g, h :: 0 <= g < h < |groups| ==> groups[g].kind != groups[h].kind)
    && (forall kind :: Projection(arms, kind) != [] || kind in done ==>
          exists g :: 0 <= g < |groups| && groups[g].kind == kind)
  }

  lemma NothingHandedOut(groups: seq<MessageGroup>, arms: seq<Arm>, arm: Arm)
    requires Grouped(groups, arms)
    ensures PartlyGrouped(groups, arms, arm, {})
  {
    forall g | 0 <= g < |groups|
      ensures groups[g].arms == Projection(arms, groups[g].kind) + []
    {
    }
  }

  lemma AllHandedOut(groups: seq<MessageGroup>, arms: seq<Arm>, arm: Arm, pieces: map<GroupKind, Arm>)
    requires PartlyGrouped(groups, arms, arm, pieces.Keys) && ArePieces(pieces, arm)
    ensures Grouped(groups, arms + [arm])
  {
    assert (arms + [arm])[..|arms|] == arms;
    forall kind
      ensures Projection(arms + [arm], kind) == Projection(arms, kind) + Piece(arm, kind)
    {
    }
  }

  ghost predicate ArePieces(pieces: map<GroupKind, Arm>, arm: Arm) {
    && (forall kind :: kind in pieces <==> Piece(arm, kind) != [])
    && (forall kind :: kind in pieces ==> Piece(arm, kind) == [pieces[kind]])
  }

  /**
   The pieces of an arm by kind, as the macro collects them from an or-pattern. An alternative
   without a kind is reported and left out, one with an unused token is reported and kept.
   */
  method CollectPieces(arm: Arm) returns (pieces: map<GroupKind, Arm>, errors: seq<Pat>)
    ensures ArePieces(pieces, arm) && errors == Errors(Alternatives(arm.pat))
  {
    pieces, errors := map[], [];
    var cases := Alternatives(arm.pat);
    var chosen: map<GroupKind, seq<Pat>> := map[];
    var i := 0;
    while i < |cases|
      invariant 0 <= i <= |cases| && errors == Errors(cases[..i])
      invariant forall kind :: kind in chosen <==> Chosen(cases[..i], kind) != []
      invariant forall kind :: kind in chosen ==> chosen[kind] == Chosen(cases[..i], kind)
    {
      assert cases[..i + 1][..i] == cases[..i];
      var extracted := ExtractKind(cases[i]);
      if extracted.Some? {
        var kind := extracted.value;
        var before := if kind in chosen then chosen[kind] else [];
        chosen := chosen[kind := before + [Refine(cases[i])]];
      }
      if Faulty(cases[i]) {
        errors := errors + [cases[i]];
      }
      i := i + 1;
    }
    assert cases[..i] == cases;
    pieces := map kind | kind in chosen :: Rebuilt(arm, chosen[kind]);
  }

  /** Adds the pieces of one arm to the groups, in whatever order the map yields them. */
  method AddGroups(groups: seq<MessageGroup>, ghost arms: seq<Arm>, arm: Arm)
    returns (groups': seq<MessageGroup>, errors: seq<Pat>)
    requires Grouped(groups, arms)
    ensures Grouped(groups', arms + [arm]) && errors == Errors(Alternatives(arm.pat))
  {
    var pieces;
    pieces, errors := CollectPieces(arm);
    groups' := groups;
    var left := pieces.Keys;
    ghost var done: set<GroupKind> := {};
    NothingHandedOut(groups, arms, arm);
    while left != {}
      invariant left !! done && left + done == pieces.Keys
      invariant PartlyGrouped(groups', arms, arm, done)
      decreases left
    {
      var kind :| kind in left;
      groups' := AddPiece(groups', arms, arm, done, kind, pieces[kind]);
      left := left - {kind};
      done := done + {kind};
    }
    assert done == pieces.Keys;
    AllHandedOut(groups', arms, arm, pieces);
  }

  method AddPiece(groups: seq<MessageGroup>, ghost arms: seq<Arm>, ghost arm: Arm, ghost done: set<GroupKind>,
                  kind: GroupKind, piece: Arm)
    returns (groups': seq<MessageGroup>)
    requires PartlyGrouped(groups, arms, arm, done) && kind !in done && Piece(arm, kind) == [piece]
    ensures PartlyGrouped(groups', arms, arm, done + {kind})
  {
    groups' := AddToGroup(groups, kind, piece);
    HandOut(groups, groups', arms, arm, done, kind, piece);
  }

  /** What adding one piece to its group amounts to. */
  ghost predicate Added(groups: seq<MessageGroup>, groups': seq<MessageGroup>, kind: GroupKind, arm: Arm) {
    && |groups| <= |groups'| <= |groups| + 1
    && (forall g, h :: 0 <= g < h < |groups'| ==> groups'[g].kind != groups'[h].kind)
    && (forall g :: 0 <= g < |groups| ==>
          && groups'[g].kind == groups[g].kind
          && groups'[g].arms == if groups[g].kind == kind then groups[g].arms + [arm] else groups[g].arms)
    && (|groups'| == |groups| <==> exists g :: 0 <= g < |groups| && groups[g].kind == kind)
    && (|groups'| > |groups| ==> groups'[|groups|] == MessageGroup(kind, [arm]))
  }

  lemma HandOutArms(groups: seq<MessageGroup>, groups': seq<MessageGroup>, arms: seq<Arm>, arm: Arm,
                    done: set<GroupKind>, kind: GroupKind, piece: Arm, g: nat)
    requires PartlyGrouped(groups, arms, arm, done) && kind !in done && Piece(arm, kind) == [piece]
    requires Added(groups, groups', kind, piece) && g < |groups'|
    ensures groups'[g].arms == Projection(arms, groups'[g].kind)
              + (if groups'[g].kind in done + {kind} then Piece(arm, groups'[g].kind) else [])
    ensures groups'[g].arms != []
  {
    if g < |groups| {
      assert groups[g].arms == Projection(arms, groups[g].kind)
               + (if groups[g].kind in done then Piece(arm, groups[g].kind) else []);
    } else {
      assert groups'[g] == MessageGroup(kind, [piece]);
      assert Projection(arms, kind) == [];
    }
  }

  lemma HandOutKind(groups: seq<MessageGroup>, groups': seq<MessageGroup>, arms: seq<Arm>, arm: Arm,
                    done: set<GroupKind>, kind: GroupKind, piece: Arm, k: GroupKind) returns (g: nat)
    requires PartlyGrouped(groups, arms, arm, done) && Added(groups, groups', kind, piece)
    requires Projection(arms, k) != [] || k in done + {kind}
    ensures g < |groups'| && groups'[g].kind == k
  {
    if k == kind && |groups'| > |groups| {
      g := |groups|;
    } else {
      g :| 0 <= g < |groups| && groups[g].kind == k;
    }
  }

  lemma HandOut(groups: seq<MessageGroup>, groups': seq<MessageGroup>, arms: seq<Arm>, arm: Arm,
                done: set<GroupKind>, kind: GroupKind, piece: Arm)
    requires PartlyGrouped(groups, arms, arm, done) && kind !in done && Piece(arm, kind) == [piece]
    requires Added(groups, groups', kind, piece)
    ensures PartlyGrouped(groups', arms, arm, done + {kind})
  {
    forall k | Projection(arms, k) != [] || k in done + {kind}
      ensures exists g :: 0 <= g < |groups'| && groups'[g].kind == k
    {
      var g := HandOutKind(groups, groups', arms, arm, done, kind, piece, k);
    }
    forall g | 0 <= g < |groups'|
      ensures groups'[g].arms == Projection(arms, groups'[g].kind)
                + (if groups'[g].kind in done + {kind} then Piece(arm, groups'[g].kind) else [])
      ensures groups'[g].arms != []
    {
      HandOutArms(groups, groups', arms, arm, done, kind, piece, g);
    }
  }

  /** The alternatives that are reported. */
  function Errors(alternatives: seq<Pat>): seq<Pat> {
    if alternatives == [] then []
    else
      var last := alternatives[|alternatives| - 1];
      Errors(alternatives[..|alternatives| - 1]) + if Faulty(last) then [last] else []
  }

  lemma {:induction false} ErrorsIff(alternatives: seq<Pat>)
    ensures Errors(alternatives) == [] <==> forall i :: 0 <= i < |alternatives| ==> !Faulty(alternatives[i])
  {
    if alternatives != [] { ErrorsIff(alternatives[..|alternatives| - 1]); }
  }

  ghost predicate HasErrors(arms: seq<Arm>) {
    exists a :: 0 <= a < |arms| && !NoErrors(arms[a].pat)
  }

  lemma OneMoreArm(arms: seq<Arm>, arm: Arm)
    ensures HasErrors(arms + [arm]) <==> HasErrors(arms) || Errors(Alternatives(arm.pat)) != []
  {
    ErrorsIff(Alternatives(arm.pat));
    var all := arms + [arm];
    assert all[|arms|] == arm && forall a :: 0 <= a < |arms| ==> all[a] == arms[a];
  }

  /** The macro's loop over all arms; it goes on after an error, which then fails the compilation. */
  method GroupArms(arms: seq<Arm>) returns (groups: seq<MessageGroup>, failed: bool)
    ensures Grouped(groups, arms)
    ensures failed <==> HasErrors(arms)
    ensures VariantsTogether(groups, arms)
  {
    groups, failed := [], false;
    var i := 0;
    while i < |arms|
      invariant 0 <= i <= |arms|
      invariant Grouped(groups, arms[..i])
      invariant failed <==> HasErrors(arms[..i])
    {
      groups, failed := AddArm(groups, failed, arms, i);
      i := i + 1;
    }
    assert arms[..i] == arms;
    VariantsAreTogether(groups, arms);
  }

  /** Two arms about variants of one enum. */
  predicate SameEnum(a: Pat, b: Pat) {
    && IsOver(a, Named(a)) && IsOver(b, Named(b))
    && AfterCapital(Named(a)) && AfterCapital(Named(b))
    && Named(a)[..|Named(a)| - 1] == Named(b)[..|Named(b)| - 1]
  }

  function Named(pat: Pat): Path {
    if pat.PathPat? || pat.Struct? || pat.TupleStruct? then pat.path else []
  }

  /** They are in one group, as they are, filed under the enum. */
  ghost predicate VariantsTogether(groups: seq<MessageGroup>, arms: seq<Arm>) {
    forall a, b :: 0 <= a < |arms| && 0 <= b < |arms| && SameEnum(arms[a].pat, arms[b].pat) ==>
      exists g :: 0 <= g < |groups| && groups[g].kind == Regular(Named(arms[a].pat)[..|Named(arms[a].pat)| - 1])
                  && arms[a] in groups[g].arms && arms[b] in groups[g].arms
  }

  lemma VariantsAreTogether(groups: seq<MessageGroup>, arms: seq<Arm>)
    requires Grouped(groups, arms)
    ensures VariantsTogether(groups, arms)
  {
    forall a, b | 0 <= a < |arms| && 0 <= b < |arms| && SameEnum(arms[a].pat, arms[b].pat)
      ensures exists g :: 0 <= g < |groups| && groups[g].kind == Regular(Named(arms[a].pat)[..|Named(arms[a].pat)| - 1])
                          && arms[a] in groups[g].arms && arms[b] in groups[g].arms
    {
      var kind := Regular(Named(arms[a].pat)[..|Named(arms[a].pat)| - 1]);
      VariantIsProjected(arms, a, kind);
      VariantIsProjected(arms, b, kind);
      var g :| 0 <= g < |groups| && groups[g].kind == kind;
    }
  }

  lemma VariantIsProjected(arms: seq<Arm>, a: nat, kind: GroupKind)
    requires a < |arms| && SameEnum(arms[a].pat, arms[a].pat)
    requires kind == Regular(Named(arms[a].pat)[..|Named(arms[a].pat)| - 1])
    ensures arms[a] in Projection(arms, kind)
  {
    var path := Named(arms[a].pat);
    assert path == path[..|path| - 2] + [path[|path| - 2], path[|path| - 1]];
    assert path[..|path| - 1] == path[..|path| - 2] + [path[|path| - 2]];
    VariantIsFiled(path[..|path| - 2], path[|path| - 2], path[|path| - 1], arms[a].pat, path[|path| - 1]);
    PieceOfOne(arms[a], kind);
    assert Alternatives(arms[a].pat)[0] == arms[a].pat;
    var j := ArmIsProjected(arms, a, kind);
  }

  method AddArm(groups: seq<MessageGroup>, failed: bool, arms: seq<Arm>, i: nat)
    returns (groups': seq<MessageGroup>, failed': bool)
    requires i < |arms| && Grouped(groups, arms[..i]) && (failed <==> HasErrors(arms[..i]))
    ensures Grouped(groups', arms[..i + 1]) && (failed' <==> HasErrors(arms[..i + 1]))
  {
    assert arms[..i + 1] == arms[..i] + [arms[i]];
    OneMoreArm(arms[..i], arms[i]);
    var errors;
    groups', errors := AddGroups(groups, arms[..i], arms[i]);
    failed' := failed || errors != [];
  }

  // === Meaning ===

  type TypeId = nat
  type Value = nat

  datatype Envelope = Envelope(typeId: TypeId, value: Value)

  /**
   What a name stands for in an ordinary pattern: a unit struct, a constant or a variant without
   fields (of this type), or nothing, so that it becomes a variable if it is a single identifier.
   */
  datatype Resolution = UnitStruct | Constant(typeId: TypeId) | Variable

  /** How the names in the patterns are resolved, and what refutable patterns and guards say. */
  datatype Names = Names(
    isType: Path -> bool,
    typeOf: Path -> TypeId,                  // of a path that names a type
    ownerOf: Path -> TypeId,                 // of a path that names a struct or a variant with fields
    resolve: Path -> Resolution,
    fits: (Path, Fields, Value) -> bool,     // the value has this constructor and these fields
    guard: (nat, Value) -> bool)             // the guard of an arm (true if it has none)

  predicate NameMeans(n: Names, path: Path, e: Envelope) {
    match n.resolve(path)
    case UnitStruct => e.typeId == n.typeOf(path)
    case Constant(typeId) => e.typeId == typeId && n.fits(path, 0, e.value)
    case Variable => true
  }

  /** What an ordinary pattern says about an envelope. */
  ghost predicate Means(n: Names, pat: Pat, e: Envelope)
    decreases pat
  {
    match pat
    case Wild => true
    case Binding(name, sub) =>
      if sub.Some? then Means(n, sub.value, e) else name.capital ==> NameMeans(n, [name], e)
    case PathPat(path) => n.resolve(path) != Variable && NameMeans(n, path, e)
    case Struct(path, fields) => e.typeId == n.ownerOf(path) && n.fits(path, fields, e.value)
    case TupleStruct(path, fields) => e.typeId == n.ownerOf(path) && n.fits(path, fields, e.value)
    case Tuple(elems) => |elems| == 2 && Means(n, elems[0], e)
    case OrPat(cases) => exists i :: 0 <= i < |cases| && Means(n, cases[i], e)
    case Reference(p) => Means(n, p, e)
    case Hidden(p) => Means(n, p, e)
    case Forbidden => false
  }

  predicate NameNative(n: Names, path: Path, v: Value) {
    n.resolve(path).Constant? ==> n.fits(path, 0, v)
  }

  /** What an ordinary match says about a message of the right type. */
  ghost predicate Native(n: Names, pat: Pat, v: Value)
    decreases pat
  {
    match pat
    case Wild => true
    case Binding(name, sub) => if sub.Some? then Native(n, sub.value, v) else name.capital ==> NameNative(n, [name], v)
    case PathPat(path) => n.resolve(path) != Variable && NameNative(n, path, v)
    case Struct(path, fields) => n.fits(path, fields, v)
    case TupleStruct(path, fields) => n.fits(path, fields, v)
    case Tuple(elems) => |elems| == 2 && Native(n, elems[0], v)
    case OrPat(cases) => exists i :: 0 <= i < |cases| && Native(n, cases[i], v)
    case Reference(p) => Native(n, p, v)
    case Hidden(p) => Native(n, p, v)
    case Forbidden => false
  }

  predicate NameCompiles(n: Names, path: Path, typeId: TypeId) {
    match n.resolve(path)
    case UnitStruct => n.typeOf(path) == typeId
    case Constant(t) => t == typeId
    case Variable => true
  }

  /** The compiler accepts the pattern for messages of the type: all names in it are of that type. */
  predicate Compiles(n: Names, pat: Pat, typeId: TypeId)
    decreases pat
  {
    match pat
    case Wild => true
    case Binding(name, sub) =>
      if sub.Some? then Compiles(n, sub.value, typeId) else name.capital ==> NameCompiles(n, [name], typeId)
    case PathPat(path) => n.resolve(path) != Variable && NameCompiles(n, path, typeId)
    case Struct(path, _) => n.ownerOf(path) == typeId
    case TupleStruct(path, _) => n.ownerOf(path) == typeId
    case Tuple(elems) => |elems| == 2 && Compiles(n, elems[0], typeId)
    case OrPat(cases) => forall i :: 0 <= i < |cases| ==> Compiles(n, cases[i], typeId)
    case Reference(p) => Compiles(n, p, typeId)
    case Hidden(p) => Compiles(n, p, typeId)
    case Forbidden => false
  }

  /** A wildcard or a variable somewhere in the pattern makes it match whatever comes. */
  predicate CatchesAll(n: Names, pat: Pat)
    decreases pat
  {
    match pat
    case Wild => true
    case Binding(name, sub) =>
      if sub.Some? then CatchesAll(n, sub.value) else name.capital ==> n.resolve([name]) == Variable
    case Tuple(elems) => |elems| == 2 && CatchesAll(n, elems[0])
    case OrPat(cases) => exists i :: 0 <= i < |cases| && CatchesAll(n, cases[i])
    case Reference(p) => CatchesAll(n, p)
    case Hidden(p) => CatchesAll(n, p)
    case _ => false
  }

  /** Types are named through modules: what is inside a type, such as a variant, is no type. */
  ghost predicate Namespaced(n: Names) {
    forall p: Path, name: Ident {:trigger n.isType(p + [name])} :: p != [] && n.isType(p) ==> !n.isType(p + [name])
  }

  /** The chain tests for this type. */
  ghost predicate IsTested(n: Names, kind: GroupKind) {
    kind != WildGroup && n.isType(kind.path) && Namespaced(n)
  }

  function TypeOf(n: Names, kind: GroupKind): TypeId
    requires kind != WildGroup
  {
    n.typeOf(kind.path)
  }

  /** On messages of its type, a pattern that compiles means natively what it means in `msg!`. */
  lemma {:induction false} NativeMeans(n: Names, pat: Pat, e: Envelope)
    requires Compiles(n, pat, e.typeId)
    ensures Native(n, pat, e.value) <==> Means(n, pat, e)
    decreases pat
  {
    match pat
    case Binding(name, sub) => if sub.Some? { NativeMeans(n, sub.value, e); }
    case Tuple(elems) => NativeMeans(n, elems[0], e);
    case OrPat(cases) =>
      forall i | 0 <= i < |cases|
        ensures Native(n, cases[i], e.value) <==> Means(n, cases[i], e)
      {
        NativeMeans(n, cases[i], e);
      }
    case Reference(p) => NativeMeans(n, p, e);
    case Hidden(p) => NativeMeans(n, p, e);
    case _ =>
  }

  lemma {:induction false} CatchesAllMeans(n: Names, pat: Pat, e: Envelope)
    requires CatchesAll(n, pat)
    ensures Means(n, pat, e)
    decreases pat
  {
    match pat
    case Binding(_, sub) => if sub.Some? { CatchesAllMeans(n, sub.value, e); }
    case Tuple(elems) => CatchesAllMeans(n, elems[0], e);
    case OrPat(cases) =>
      var i :| 0 <= i < |cases| && CatchesAll(n, cases[i]);
      CatchesAllMeans(n, cases[i], e);
    case Reference(p) => CatchesAllMeans(n, p, e);
    case Hidden(p) => CatchesAllMeans(n, p, e);
    case _ =>
  }

  /** A pattern for messages of one type says something about others only by a wildcard in it. */
  lemma {:induction false} OthersAreCaught(n: Names, pat: Pat, typeId: TypeId, e: Envelope)
    requires Compiles(n, pat, typeId) && e.typeId != typeId && Means(n, pat, e)
    ensures CatchesAll(n, pat)
    decreases pat
  {
    match pat
    case Binding(_, sub) => if sub.Some? { OthersAreCaught(n, sub.value, typeId, e); }
    case Tuple(elems) => OthersAreCaught(n, elems[0], typeId, e);
    case OrPat(cases) =>
      var i :| 0 <= i < |cases| && Means(n, cases[i], e);
      OthersAreCaught(n, cases[i], typeId, e);
    case Reference(p) => OthersAreCaught(n, p, typeId, e);
    case Hidden(p) => OthersAreCaught(n, p, typeId, e);
    case _ =>
  }

  /** The wildcard kind belongs to patterns that match every envelope. */
  lemma {:induction false} WildMeansAll(n: Names, pat: Pat, e: Envelope)
    requires ExtractKind(pat) == Some(WildGroup)
    ensures Means(n, pat, e)
    decreases pat
  {
    match pat
    case Binding(_, sub) => if sub.Some? { WildMeansAll(n, sub.value, e); }
    case OrPat(cases) =>
      var i := FirstKindIsOneOfThem(cases, 0);
      WildMeansAll(n, cases[i], e);
    case Reference(p) => WildMeansAll(n, p, e);
    case _ =>
  }

  /** The message part of a pattern. */
  function Inner(pat: Pat): Pat {
    if pat.Tuple? && |pat.elems| == 2 then pat.elems[0] else pat
  }

  predicate NamesType(n: Names, pat: Pat) {
    match pat
    case Binding(name, None) => name.capital && n.isType([name])
    case PathPat(path) => n.isType(path)
    case _ => false
  }

  function NamedType(pat: Pat): Path
    requires pat.Binding? || pat.PathPat?
  {
    if pat.Binding? then [pat.name] else pat.path
  }

  predicate BindsType(n: Names, pat: Pat) {
    pat.Binding? && pat.sub.Some? && NamesType(n, pat.sub.value)
  }

  predicate JustNames(n: Names, pat: Pat) {
    NamesType(n, Inner(pat)) || BindsType(n, Inner(pat))
  }

  /** What the macro takes for a type name is one, if the chain compiles. */
  lemma GuessedTypes(n: Names, pat: Pat, kind: GroupKind)
    requires ExtractKind(pat) == Some(kind) && IsTested(n, kind)
    ensures IsLikelyType(Inner(pat)) <==> NamesType(n, Inner(pat))
    ensures IsBindingWithType(Inner(pat)) <==> BindsType(n, Inner(pat))
  {
    var inner := Inner(pat);
    GuessedType(n, inner, kind.path);
    if inner.Binding? && inner.sub.Some? { GuessedType(n, inner.sub.value, kind.path); }
  }

  lemma GuessedType(n: Names, pat: Pat, path: Path)
    requires ExtractKind(pat) == Some(Regular(path)) || ExtractKind(pat) == Some(Request(path))
    requires n.isType(path) && Namespaced(n)
    ensures IsLikelyType(pat) <==> NamesType(n, pat)
  {
    if pat.PathPat? && TypePath(pat.path) != pat.path { InsideNoType(n, pat.path); }
  }

  lemma InsideNoType(n: Names, path: Path)
    requires Namespaced(n) && |path| >= 2 && n.isType(path[..|path| - 1])
    ensures !n.isType(path)
  {
    var m := |path| - 1;
    assert path == path[..m] + [path[m]];
    assert !n.isType(path[..m] + [path[m]]);
  }

  /**
   What an alternative of an arm says about an envelope. A type name, alone or bound to a variable,
   matches its type; everything else is an ordinary pattern. If the variable is really a constant,
   it has to match as well.
   */
  ghost predicate Says(n: Names, pat: Pat, e: Envelope) {
    var inner := Inner(pat);
    if NamesType(n, inner) then e.typeId == n.typeOf(NamedType(inner))
    else if BindsType(n, inner) then
      e.typeId == n.typeOf(NamedType(inner.sub.value)) && (inner.name.capital ==> NameMeans(n, [inner.name], e))
    else Means(n, pat, e)
  }

  /** There is a wildcard in the alternative, not just a type name. */
  predicate HasWildInside(n: Names, pat: Pat) {
    !JustNames(n, pat) && CatchesAll(n, pat)
  }

  lemma RefinedIsSame(pat: Pat)
    requires !IsLikelyType(Inner(pat)) && !IsBindingWithType(Inner(pat))
    ensures Refine(pat) == pat
  {
    if pat.Tuple? && |pat.elems| == 2 { assert pat.elems == [pat.elems[0], pat.elems[1]]; }
  }

  /** An alternative that just names its type says what is left of it by refining. */
  lemma NamesItsType(n: Names, pat: Pat, kind: GroupKind, e: Envelope)
    requires ExtractKind(pat) == Some(kind) && IsTested(n, kind) && JustNames(n, pat)
    requires Compiles(n, Refine(pat), TypeOf(n, kind))
    ensures Says(n, pat, e) <==> e.typeId == TypeOf(n, kind) && Native(n, Refine(pat), e.value)
  {
    var inner := Inner(pat);
    GuessedTypes(n, pat, kind);
    if pat.Tuple? { assert Refine(pat) == Tuple([RefineInner(inner), pat.elems[1]]); }
    if IsLikelyType(inner) {
      assert ExtractKind(inner) == Some(Regular(NamedType(inner)));
    } else {
      assert ExtractKind(inner) == Some(Regular(NamedType(inner.sub.value)));
    }
  }

  /** A wildcard alternative matches every envelope. */
  lemma WildSaysAll(n: Names, pat: Pat, e: Envelope)
    requires ExtractKind(pat) == Some(WildGroup)
    ensures Says(n, pat, e)
  {
    WildMeansAll(n, pat, e);
  }

  /**
   Refining keeps the meaning on messages of the alternative's type. About other messages it says
   something exactly if there is a wildcard in it.
   */
  lemma RefineMeans(n: Names, pat: Pat, kind: GroupKind, e: Envelope)
    requires ExtractKind(pat) == Some(kind) && IsTested(n, kind) && Compiles(n, Refine(pat), TypeOf(n, kind))
    ensures e.typeId == TypeOf(n, kind) ==> (Native(n, Refine(pat), e.value) <==> Says(n, pat, e))
    ensures e.typeId != TypeOf(n, kind) ==> (HasWildInside(n, pat) <==> Says(n, pat, e))
  {
    GuessedTypes(n, pat, kind);
    if JustNames(n, pat) {
      NamesItsType(n, pat, kind, e);
    } else {
      RefinedIsSame(pat);
      if e.typeId == TypeOf(n, kind) {
        NativeMeans(n, pat, e);
      } else if Means(n, pat, e) {
        OthersAreCaught(n, pat, TypeOf(n, kind), e);
      } else if CatchesAll(n, pat) {
        CatchesAllMeans(n, pat, e);
      }
    }
  }

  // === Guessing types by their spelling ===

  /** The pattern is about the struct, the type or the variant with this name, without a variable. */
  predicate IsOver(pat: Pat, path: Path) {
    (pat.PathPat? || pat.Struct? || pat.TupleStruct?) && pat.path == path
  }

  /** The variants of an enum are filed under the enum, and their patterns stay as they are. */
  lemma VariantIsFiled(p: Path, enum: Ident, variant: Ident, pat: Pat, token: Ident)
    requires enum.capital && IsOver(pat, p + [enum, variant])
    ensures ExtractKind(pat) == Some(Regular(p + [enum])) && Refine(pat) == pat
    ensures var request := Tuple([pat, Binding(token, None)]);
            ExtractKind(request) == Some(Request(p + [enum])) && Refine(request) == request
  {
    var path := p + [enum, variant];
    assert path[|path| - 2] == enum && path[..|path| - 1] == p + [enum];
    assert ExtractKind(pat) == Some(Regular(p + [enum]));
    assert path != p + [enum];
  }

  /** So an ordinary match tells the variants apart. */
  lemma VariantIsNative(n: Names, p: Path, enum: Ident, variant: Ident, v: Value)
    requires enum.capital && n.resolve(p + [enum, variant]).Constant?
    ensures Native(n, Refine(PathPat(p + [enum, variant])), v) <==> n.fits(p + [enum, variant], 0, v)
  {
    VariantIsFiled(p, enum, variant, PathPat(p + [enum, variant]), enum);
  }

  /** Other paths are filed under themselves, and those without fields become wildcards. */
  lemma OtherIsFiled(path: Path, pat: Pat, token: Ident)
    requires !AfterCapital(path) && IsOver(pat, path)
    ensures ExtractKind(pat) == Some(Regular(path)) && Refine(pat) == if pat.PathPat? then Wild else pat
    ensures var request := Tuple([pat, Binding(token, None)]);
            && ExtractKind(request) == Some(Request(path))
            && Refine(request) == Tuple([Refine(pat), Binding(token, None)])
  {
    assert ExtractKind(pat) == Some(Regular(path));
  }

  /** The last segment follows a capital one. */
  predicate AfterCapital(path: Path) {
    |path| >= 2 && path[|path| - 2].capital
  }

  /** The name in a pattern, which may be bound to a variable. */
  function Written(pat: Pat): Option<Path> {
    match pat
    case Binding(name, None) => if name.capital then Some([name]) else None
    case Binding(name, Some(sub)) =>
      if name.capital || (sub.Binding? && sub.sub.Some?) then None else Written(sub)
    case PathPat(path) => Some(path)
    case Struct(path, _) => Some(path)
    case TupleStruct(path, _) => Some(path)
    case _ => None
  }

  function Unbound(pat: Pat): Pat {
    if pat.Binding? && pat.sub.Some? then pat.sub.value else pat
  }

  /** The alternative names a type, or a struct or a variant, with or without fields, and has a token or not. */
  predicate Typical(n: Names, pat: Pat) {
    var inner := Inner(pat);
    && (pat.Tuple? ==> |pat.elems| == 2 && pat.elems[1].Binding?)
    && Written(inner).Some?
    && var path := Written(inner).value;
       && (n.isType(path) ==> n.ownerOf(path) == n.typeOf(path))
       && (Unbound(inner).Binding? || Unbound(inner).PathPat? ==>
             n.isType(path) || n.resolve(path) == Constant(n.ownerOf(path)))
  }

  /** A type is not written behind a capital name, and a variant is written behind its enum, which is capital. */
  predicate WellSpelled(n: Names, path: Path) {
    if n.isType(path) then !AfterCapital(path)
    else
      && AfterCapital(path)
      && n.isType(path[..|path| - 1]) && n.typeOf(path[..|path| - 1]) == n.ownerOf(path)
  }

  /** What the macro makes of the alternative passes the type checker exactly if the name is spelled well. */
  lemma TypicalCompilesIff(n: Names, pat: Pat)
    requires Typical(n, pat) && Namespaced(n)
    ensures ExtractKind(pat).Some? && ExtractKind(pat).value != WildGroup
    ensures var kind := ExtractKind(pat).value;
            n.isType(kind.path) && Compiles(n, Refine(pat), TypeOf(n, kind)) <==> WellSpelled(n, Written(Inner(pat)).value)
  {
    var inner := Inner(pat);
    var path := Written(inner).value;
    WrittenKind(inner);
    if pat.Tuple? { assert Refine(pat) == Tuple([RefineInner(inner), pat.elems[1]]); }
    if AfterCapital(path) {
      assert TypePath(path) == path[..|path| - 1] && |TypePath(path)| != |path|;
      if n.isType(path[..|path| - 1]) { InsideNoType(n, path); }
    } else {
      assert TypePath(path) == path;
    }
  }

  /** A typical alternative is reported exactly if the name of its token begins with an underscore. */
  lemma TypicalIsReportedIff(n: Names, pat: Pat)
    requires Typical(n, pat)
    ensures Faulty(pat) <==> pat.Tuple? && "_" <= pat.elems[1].name.text
  {
    var inner := Inner(pat);
    WrittenKind(inner);
    assert !Reports(inner) by {
      if inner.Binding? && inner.sub.Some? { assert !Reports(inner.sub.value); }
    }
  }

  /** Tuples that are not requests, hidden patterns and those that no message can match are reported. */
  lemma AlwaysReported(pat: Pat)
    requires pat.Hidden? || pat.Forbidden?
             || (pat.Tuple? && (|pat.elems| != 2 || !pat.elems[1].Binding? || pat.elems[0] == Wild))
    ensures Faulty(pat)
  {
    if pat.Tuple? && |pat.elems| == 2 && pat.elems[0] == Wild { assert ExtractKind(pat.elems[0]) == Some(WildGroup); }
  }

  lemma WrittenKind(pat: Pat)
    requires Written(pat).Some?
    ensures ExtractKind(pat) == Some(Regular(TypePath(Written(pat).value)))
  {
    if pat.Binding? && pat.sub.Some? {
      assert ExtractKind(pat.sub.value) == Some(Regular(TypePath(Written(pat.sub.value).value)));
    }
  }

  // === Reading the arms from top to bottom ===

  ghost predicate SomeAlternative(n: Names, arm: Arm, e: Envelope) {
    exists i :: 0 <= i < |Alternatives(arm.pat)| && Says(n, Alternatives(arm.pat)[i], e)
  }

  ghost predicate ArmMeans(n: Names, arm: Arm, e: Envelope) {
    SomeAlternative(n, arm, e) && n.guard(arm.id, e.value)
  }

  /** The arm that handles the envelope when the arms are tried one after another. */
  ghost function FirstMatch(n: Names, arms: seq<Arm>, e: Envelope): Option<nat> {
    if arms == [] then None
    else
      var last := arms[|arms| - 1];
      var before := FirstMatch(n, arms[..|arms| - 1], e);
      if before.Some? then before else if ArmMeans(n, last, e) then Some(last.id) else None
  }

  // === Running the generated chain ===

  ghost predicate NativeArm(n: Names, arm: Arm, v: Value) {
    Native(n, arm.pat, v) && n.guard(arm.id, v)
  }

  ghost function FirstNative(n: Names, arms: seq<Arm>, v: Value): Option<nat> {
    if arms == [] then None
    else
      var last := arms[|arms| - 1];
      var before := FirstNative(n, arms[..|arms| - 1], v);
      if before.Some? then before else if NativeArm(n, last, v) then Some(last.id) else None
  }

  /** Type tests in the order of the groups; the wildcard group is the final `else`. */
  ghost function Dispatch(n: Names, groups: seq<MessageGroup>, e: Envelope, g: nat): Option<nat>
    requires g <= |groups| && forall h :: 0 <= h < |groups| ==> groups[h].arms != []
    decreases |groups| - g
  {
    if g == |groups| then None
    else if groups[g].kind == WildGroup then Some(groups[g].arms[0].id)
    else if TypeOf(n, groups[g].kind) == e.typeId then FirstNative(n, groups[g].arms, e.value)
    else Dispatch(n, groups, e, g + 1)
  }

  // === What the macro and the compiler accept ===

  predicate WellFormed(arms: seq<Arm>) {
    Numbered(arms) && forall a :: 0 <= a < |arms| ==> NoErrors(arms[a].pat)
  }

  predicate Numbered(arms: seq<Arm>) {
    forall a :: 0 <= a < |arms| ==> arms[a].id == a
  }

  /** The chain compiles: `else` comes last and is irrefutable, every inner match is exhaustive. */
  ghost predicate Accepted(n: Names, groups: seq<MessageGroup>) {
    && (forall g :: 0 <= g < |groups| ==> groups[g].arms != [])
    && (forall g :: 0 <= g < |groups| && groups[g].kind == WildGroup ==>
          g == |groups| - 1 && |groups[g].arms| == 1 && forall v: Value :: n.guard(groups[g].arms[0].id, v))
    && (forall g :: 0 <= g < |groups| && groups[g].kind != WildGroup ==>
          && IsTested(n, groups[g].kind) && AllCompile(n, groups[g].arms, TypeOf(n, groups[g].kind))
          && (forall v: Value :: FirstNative(n, groups[g].arms, v).Some?))
  }

  /** Every group but the wildcards tests for a type, and its arms are of that type. */
  ghost predicate TypeChecks(n: Names, groups: seq<MessageGroup>) {
    forall g :: 0 <= g < |groups| && groups[g].kind != WildGroup ==>
      IsTested(n, groups[g].kind) && AllCompile(n, groups[g].arms, TypeOf(n, groups[g].kind))
  }

  /** Every message type is written in one way throughout the match. */
  ghost predicate OneSpelling(n: Names, groups: seq<MessageGroup>) {
    forall g, h :: 0 <= g < h < |groups| && groups[g].kind != WildGroup && groups[h].kind != WildGroup ==>
      TypeOf(n, groups[g].kind) != TypeOf(n, groups[h].kind)
  }

  // === Comparing the two ===

  ghost predicate TypedAlternative(n: Names, arm: Arm, kind: GroupKind, e: Envelope) {
    SomeSays(n, Alternatives(arm.pat), kind, e)
  }

  ghost predicate TypedMatch(n: Names, arm: Arm, kind: GroupKind, e: Envelope) {
    TypedAlternative(n, arm, kind, e) && n.guard(arm.id, e.value)
  }

  ghost function FirstTyped(n: Names, arms: seq<Arm>, kind: GroupKind, e: Envelope): Option<nat> {
    if arms == [] then None
    else
      var last := arms[|arms| - 1];
      var before := FirstTyped(n, arms[..|arms| - 1], kind, e);
      if before.Some? then before else if TypedMatch(n, last, kind, e) then Some(last.id) else None
  }

  /** The alternative is about another type, but there is a wildcard in it. */
  predicate StrayAlternative(n: Names, pat: Pat, e: Envelope) {
    var kind := ExtractKind(pat);
    kind.Some? && kind.value != WildGroup && TypeOf(n, kind.value) != e.typeId && HasWildInside(n, pat)
  }

  predicate StrayMatch(n: Names, arm: Arm, e: Envelope) {
    n.guard(arm.id, e.value)
    && exists i :: 0 <= i < |Alternatives(arm.pat)| && StrayAlternative(n, Alternatives(arm.pat)[i], e)
  }

  function FirstStray(n: Names, arms: seq<Arm>, e: Envelope): Option<nat> {
    if arms == [] then None
    else
      var last := arms[|arms| - 1];
      var before := FirstStray(n, arms[..|arms| - 1], e);
      if before.Some? then before else if StrayMatch(n, last, e) then Some(last.id) else None
  }

  predicate IsWild(arm: Arm) {
    HasKind(Alternatives(arm.pat), WildGroup)
  }

  function FirstWild(arms: seq<Arm>): Option<nat> {
    if arms == [] then None
    else
      var before := FirstWild(arms[..|arms| - 1]);
      if before.Some? then before else if IsWild(arms[|arms| - 1]) then Some(arms[|arms| - 1].id) else None
  }

  lemma {:induction false} ChosenNative(n: Names, alternatives: seq<Pat>, kind: GroupKind, e: Envelope)
    requires IsTested(n, kind) && e.typeId == TypeOf(n, kind)
    requires forall i :: 0 <= i < |Chosen(alternatives, kind)| ==> Compiles(n, Chosen(alternatives, kind)[i], e.typeId)
    ensures SomeNative(n, Chosen(alternatives, kind), e.value) <==> SomeSays(n, alternatives, kind, e)
  {
    if alternatives != [] {
      var m := |alternatives| - 1;
      var before, last := alternatives[..m], alternatives[m];
      var chosen, chosenBefore := Chosen(alternatives, kind), Chosen(before, kind);
      assert forall i :: 0 <= i < |chosenBefore| ==> chosen[i] == chosenBefore[i];
      ChosenNative(n, before, kind, e);
      if ExtractKind(last) == Some(kind) {
        assert chosen == chosenBefore + [Refine(last)] && chosen[|chosenBefore|] == Refine(last);
        RefineMeans(n, last, kind, e);
        SomeNativeAppend(n, chosenBefore, Refine(last), e.value);
      } else {
        assert chosen == chosenBefore;
      }
      assert alternatives == before + [last];
      SomeSaysAppend(n, before, last, kind, e);
    }
  }

  ghost predicate SomeNative(n: Names, pats: seq<Pat>, v: Value) {
    exists i :: 0 <= i < |pats| && Native(n, pats[i], v)
  }

  ghost predicate SomeSays(n: Names, pats: seq<Pat>, kind: GroupKind, e: Envelope) {
    exists i :: 0 <= i < |pats| && ExtractKind(pats[i]) == Some(kind) && Says(n, pats[i], e)
  }

  lemma SomeNativeAppend(n: Names, pats: seq<Pat>, last: Pat, v: Value)
    ensures SomeNative(n, pats + [last], v) <==> SomeNative(n, pats, v) || Native(n, last, v)
  {
    var all := pats + [last];
    assert all[|pats|] == last && forall i :: 0 <= i < |pats| ==> all[i] == pats[i];
  }

  lemma SomeSaysAppend(n: Names, pats: seq<Pat>, last: Pat, kind: GroupKind, e: Envelope)
    ensures SomeSays(n, pats + [last], kind, e) <==>
            SomeSays(n, pats, kind, e) || (ExtractKind(last) == Some(kind) && Says(n, last, e))
  {
    var all := pats + [last];
    assert all[|pats|] == last && forall i :: 0 <= i < |pats| ==> all[i] == pats[i];
  }

  lemma PieceNative(n: Names, arm: Arm, kind: GroupKind, e: Envelope)
    requires IsTested(n, kind) && e.typeId == TypeOf(n, kind)
    requires AllCompile(n, Piece(arm, kind), e.typeId)
    ensures TypedMatch(n, arm, kind, e) <==> Piece(arm, kind) != [] && NativeArm(n, Piece(arm, kind)[0], e.value)
  {
    var chosen := Chosen(Alternatives(arm.pat), kind);
    if chosen != [] {
      assert Piece(arm, kind)[0] == Rebuilt(arm, chosen);
      RebuiltCompiles(n, arm, kind, e.typeId);
      RebuiltNative(n, arm, chosen, kind, e.value);
      ChosenNative(n, Alternatives(arm.pat), kind, e);
    } else {
      ChosenIffHasKind(Alternatives(arm.pat), kind);
      assert !TypedAlternative(n, arm, kind, e) by {
        if i :| 0 <= i < |Alternatives(arm.pat)| && ExtractKind(Alternatives(arm.pat)[i]) == Some(kind) {
          assert HasKind(Alternatives(arm.pat), kind);
        }
      }
    }
  }

  /** The rebuilt pattern matches if one of the chosen alternatives does. */
  lemma RebuiltNative(n: Names, arm: Arm, chosen: seq<Pat>, kind: GroupKind, v: Value)
    requires chosen != [] && chosen == Chosen(Alternatives(arm.pat), kind)
    ensures Native(n, Rebuilt(arm, chosen).pat, v) <==> SomeNative(n, chosen, v)
  {
    if !arm.pat.OrPat? { ChosenOfOne(arm, kind); }
  }

  lemma ChosenOfOne(arm: Arm, kind: GroupKind)
    requires !arm.pat.OrPat? && Chosen(Alternatives(arm.pat), kind) != []
    ensures |Chosen(Alternatives(arm.pat), kind)| == 1
  {
    assert Alternatives(arm.pat)[..0] == [] && Chosen([], kind) == [];
  }

  /** With the rebuilt pattern all chosen alternatives compile. */
  lemma RebuiltCompiles(n: Names, arm: Arm, kind: GroupKind, typeId: TypeId)
    requires AllCompile(n, Piece(arm, kind), typeId)
    ensures var chosen := Chosen(Alternatives(arm.pat), kind);
            forall i :: 0 <= i < |chosen| ==> Compiles(n, chosen[i], typeId)
  {
    var chosen := Chosen(Alternatives(arm.pat), kind);
    if chosen != [] {
      assert Compiles(n, Piece(arm, kind)[0].pat, typeId);
      if !arm.pat.OrPat? { ChosenOfOne(arm, kind); }
    }
  }

  lemma {:induction false} ChosenHolds(alternatives: seq<Pat>, i: nat, kind: GroupKind) returns (j: nat)
    requires i < |alternatives| && ExtractKind(alternatives[i]) == Some(kind)
    ensures j < |Chosen(alternatives, kind)| && Chosen(alternatives, kind)[j] == Refine(alternatives[i])
    decreases |alternatives|
  {
    var m := |alternatives| - 1;
    if i < m {
      j := ChosenHolds(alternatives[..m], i, kind);
    } else {
      j := |Chosen(alternatives[..m], kind)|;
    }
  }

  predicate AllCompile(n: Names, arms: seq<Arm>, typeId: TypeId) {
    forall a :: 0 <= a < |arms| ==> Compiles(n, arms[a].pat, typeId)
  }

  lemma AllCompileParts(n: Names, arms: seq<Arm>, more: seq<Arm>, typeId: TypeId)
    requires AllCompile(n, arms + more, typeId)
    ensures AllCompile(n, arms, typeId) && AllCompile(n, more, typeId)
  {
    var all := arms + more;
    assert forall a :: 0 <= a < |arms| ==> arms[a] == all[a];
    assert forall a :: 0 <= a < |more| ==> more[a] == all[|arms| + a];
  }

  lemma FirstNativeAppend(n: Names, arms: seq<Arm>, piece: seq<Arm>, v: Value)
    requires |piece| <= 1
    ensures FirstNative(n, arms + piece, v) ==
            var before := FirstNative(n, arms, v);
            if before.None? && piece != [] && NativeArm(n, piece[0], v) then Some(piece[0].id) else before
  {
    if piece == [] {
      assert arms + piece == arms;
    } else {
      assert (arms + piece)[..|arms|] == arms;
    }
  }

  lemma {:induction false} ProjectionNative(n: Names, arms: seq<Arm>, kind: GroupKind, e: Envelope)
    requires IsTested(n, kind) && e.typeId == TypeOf(n, kind)
    requires AllCompile(n, Projection(arms, kind), e.typeId)
    ensures FirstNative(n, Projection(arms, kind), e.value) == FirstTyped(n, arms, kind, e)
  {
    if arms != [] {
      var m := |arms| - 1;
      var before, piece := Projection(arms[..m], kind), Piece(arms[m], kind);
      assert Projection(arms, kind) == before + piece;
      assert AllCompile(n, before, e.typeId) && AllCompile(n, piece, e.typeId) by {
        AllCompileParts(n, before, piece, e.typeId);
      }
      ProjectionNative(n, arms[..m], kind, e);
      PieceNative(n, arms[m], kind, e);
      FirstNativeAppend(n, before, piece, e.value);
    }
  }

  lemma {:induction false} FirstMatchIsFirst(n: Names, arms: seq<Arm>, e: Envelope)
    requires Numbered(arms)
    ensures match FirstMatch(n, arms, e)
            case None => forall b :: 0 <= b < |arms| ==> !ArmMeans(n, arms[b], e)
            case Some(k) => k < |arms| && ArmMeans(n, arms[k], e) && forall b :: 0 <= b < k ==> !ArmMeans(n, arms[b], e)
  {
    if arms != [] { FirstMatchIsFirst(n, arms[..|arms| - 1], e); }
  }

  lemma {:induction false} FirstTypedIsFirst(n: Names, arms: seq<Arm>, kind: GroupKind, e: Envelope)
    requires Numbered(arms)
    ensures match FirstTyped(n, arms, kind, e)
            case None => forall b :: 0 <= b < |arms| ==> !TypedMatch(n, arms[b], kind, e)
            case Some(k) =>
              && k < |arms| && TypedMatch(n, arms[k], kind, e)
              && forall b :: 0 <= b < k ==> !TypedMatch(n, arms[b], kind, e)
  {
    if arms != [] { FirstTypedIsFirst(n, arms[..|arms| - 1], kind, e); }
  }

  lemma {:induction false} FirstStrayIsFirst(n: Names, arms: seq<Arm>, e: Envelope)
    requires Numbered(arms)
    ensures match FirstStray(n, arms, e)
            case None => forall b :: 0 <= b < |arms| ==> !StrayMatch(n, arms[b], e)
            case Some(k) => k < |arms| && StrayMatch(n, arms[k], e) && forall b :: 0 <= b < k ==> !StrayMatch(n, arms[b], e)
  {
    if arms != [] { FirstStrayIsFirst(n, arms[..|arms| - 1], e); }
  }

  lemma {:induction false} FirstWildIsFirst(arms: seq<Arm>)
    requires Numbered(arms)
    ensures match FirstWild(arms)
            case None => forall b :: 0 <= b < |arms| ==> !IsWild(arms[b])
            case Some(k) => k < |arms| && IsWild(arms[k]) && forall b :: 0 <= b < k ==> !IsWild(arms[b])
  {
    if arms != [] { FirstWildIsFirst(arms[..|arms| - 1]); }
  }

  /** Every typed alternative is compiled for its type. */
  lemma AlternativeCompiles(n: Names, arms: seq<Arm>, groups: seq<MessageGroup>, a: nat, i: nat, kind: GroupKind)
    requires Grouped(groups, arms) && TypeChecks(n, groups) && a < |arms| && i < |Alternatives(arms[a].pat)|
    requires ExtractKind(Alternatives(arms[a].pat)[i]) == Some(kind) && kind != WildGroup
    ensures IsTested(n, kind) && Compiles(n, Refine(Alternatives(arms[a].pat)[i]), TypeOf(n, kind))
  {
    ProjectionNonempty(arms, a, kind);
    var g := GroupOf(arms, groups, kind);
    var j := ArmIsProjected(arms, a, kind);
    assert Compiles(n, groups[g].arms[j].pat, TypeOf(n, kind));
    RebuiltCompiles(n, arms[a], kind, TypeOf(n, kind));
    var k := ChosenHolds(Alternatives(arms[a].pat), i, kind);
  }

  lemma {:induction false} ProjectedFrom(arms: seq<Arm>, kind: GroupKind, j: nat) returns (a: nat)
    requires j < |Projection(arms, kind)|
    ensures a < |arms| && Piece(arms[a], kind) == [Projection(arms, kind)[j]]
    decreases |arms|
  {
    var m := |arms| - 1;
    var before, piece := Projection(arms[..m], kind), Piece(arms[m], kind);
    assert Projection(arms, kind) == before + piece;
    if j < |before| {
      a := ProjectedFrom(arms[..m], kind, j);
    } else {
      a := m;
    }
  }

  lemma {:induction false} ChosenFrom(alternatives: seq<Pat>, kind: GroupKind, j: nat) returns (i: nat)
    requires j < |Chosen(alternatives, kind)|
    ensures i < |alternatives| && ExtractKind(alternatives[i]) == Some(kind)
    ensures Chosen(alternatives, kind)[j] == Refine(alternatives[i])
    decreases |alternatives|
  {
    var m := |alternatives| - 1;
    if j < |Chosen(alternatives[..m], kind)| {
      i := ChosenFrom(alternatives[..m], kind, j);
    } else {
      i := m;
    }
  }

  predicate AllTypical(n: Names, arms: seq<Arm>) {
    forall a, i :: 0 <= a < |arms| && 0 <= i < |Alternatives(arms[a].pat)| ==>
      var alternative := Alternatives(arms[a].pat)[i];
      Typical(n, alternative) || ExtractKind(alternative) == Some(WildGroup)
  }

  predicate AllWellSpelled(n: Names, arms: seq<Arm>) {
    forall a, i :: 0 <= a < |arms| && 0 <= i < |Alternatives(arms[a].pat)| && Typical(n, Alternatives(arms[a].pat)[i]) ==>
      WellSpelled(n, Written(Inner(Alternatives(arms[a].pat)[i])).value)
  }

  /** One arm of a group compiles, if all alternatives of that kind do. */
  lemma PieceCompiles(n: Names, arm: Arm, kind: GroupKind)
    requires kind != WildGroup && Piece(arm, kind) != []
    requires forall i :: 0 <= i < |Alternatives(arm.pat)| && ExtractKind(Alternatives(arm.pat)[i]) == Some(kind) ==>
               Compiles(n, Refine(Alternatives(arm.pat)[i]), TypeOf(n, kind))
    ensures Compiles(n, Piece(arm, kind)[0].pat, TypeOf(n, kind))
  {
    var chosen := Chosen(Alternatives(arm.pat), kind);
    forall j | 0 <= j < |chosen|
      ensures Compiles(n, chosen[j], TypeOf(n, kind))
    {
      var i := ChosenFrom(Alternatives(arm.pat), kind, j);
    }
  }

  lemma WellSpelledArm(n: Names, arms: seq<Arm>, kind: GroupKind, j: nat)
    requires Namespaced(n) && AllTypical(n, arms) && AllWellSpelled(n, arms)
    requires kind != WildGroup && j < |Projection(arms, kind)|
    ensures n.isType(kind.path) && Compiles(n, Projection(arms, kind)[j].pat, TypeOf(n, kind))
  {
    var a := ProjectedFrom(arms, kind, j);
    var alternatives := Alternatives(arms[a].pat);
    forall i | 0 <= i < |alternatives| && ExtractKind(alternatives[i]) == Some(kind)
      ensures n.isType(kind.path) && Compiles(n, Refine(alternatives[i]), TypeOf(n, kind))
    {
      TypicalCompilesIff(n, alternatives[i]);
    }
    PieceCompiles(n, arms[a], kind);
    var i := ChosenFrom(alternatives, kind, 0);
  }

  /**
   A match of typical arms passes the type checker exactly if all names are spelled as the macro
   expects: types behind lower-case names, variants behind their enums, which are capital.
   */
  lemma TypeChecksIff(n: Names, arms: seq<Arm>, groups: seq<MessageGroup>)
    requires Grouped(groups, arms) && Namespaced(n) && AllTypical(n, arms)
    ensures TypeChecks(n, groups) <==> AllWellSpelled(n, arms)
  {
    if AllWellSpelled(n, arms) {
      forall g | 0 <= g < |groups| && groups[g].kind != WildGroup
        ensures IsTested(n, groups[g].kind) && AllCompile(n, groups[g].arms, TypeOf(n, groups[g].kind))
      {
        forall j | 0 <= j < |groups[g].arms|
          ensures n.isType(groups[g].kind.path) && Compiles(n, groups[g].arms[j].pat, TypeOf(n, groups[g].kind))
        {
          WellSpelledArm(n, arms, groups[g].kind, j);
        }
        assert groups[g].arms[0] in groups[g].arms;
      }
    }
    if TypeChecks(n, groups) {
      forall a, i | 0 <= a < |arms| && 0 <= i < |Alternatives(arms[a].pat)| && Typical(n, Alternatives(arms[a].pat)[i])
        ensures WellSpelled(n, Written(Inner(Alternatives(arms[a].pat)[i])).value)
      {
        var alternative := Alternatives(arms[a].pat)[i];
        TypicalCompilesIff(n, alternative);
        AlternativeCompiles(n, arms, groups, a, i, ExtractKind(alternative).value);
      }
    }
  }

  /** An arm handles an envelope as a wildcard, by an alternative about its type, or as a stray. */
  lemma ArmIsOneOfThree(n: Names, arms: seq<Arm>, groups: seq<MessageGroup>, a: nat, e: Envelope) returns (kind: GroupKind)
    requires Grouped(groups, arms) && Accepted(n, groups) && a < |arms| && NoErrors(arms[a].pat) && ArmMeans(n, arms[a], e)
    ensures HasKind(Alternatives(arms[a].pat), kind)
    ensures kind == WildGroup || StrayMatch(n, arms[a], e)
            || (TypeOf(n, kind) == e.typeId && TypedMatch(n, arms[a], kind, e))
  {
    var i :| 0 <= i < |Alternatives(arms[a].pat)| && Says(n, Alternatives(arms[a].pat)[i], e);
    var alternative := Alternatives(arms[a].pat)[i];
    kind := ExtractKind(alternative).value;
    if kind != WildGroup {
      AlternativeCompiles(n, arms, groups, a, i, kind);
      RefineMeans(n, alternative, kind, e);
      if TypeOf(n, kind) != e.typeId { assert StrayAlternative(n, alternative, e); }
    }
  }

  lemma StrayArmMeans(n: Names, arm: Arm, e: Envelope)
    requires StrayMatch(n, arm, e)
    ensures ArmMeans(n, arm, e)
  {
    var i :| 0 <= i < |Alternatives(arm.pat)| && StrayAlternative(n, Alternatives(arm.pat)[i], e);
    CatchesAllMeans(n, Alternatives(arm.pat)[i], e);
  }

  lemma TypedArmMeans(n: Names, arm: Arm, kind: GroupKind, e: Envelope)
    requires TypedMatch(n, arm, kind, e)
    ensures ArmMeans(n, arm, e)
  {
    var i :| 0 <= i < |Alternatives(arm.pat)| && ExtractKind(Alternatives(arm.pat)[i]) == Some(kind)
             && Says(n, Alternatives(arm.pat)[i], e);
  }

  lemma WildArmMeans(n: Names, arm: Arm, e: Envelope)
    requires IsWild(arm) && n.guard(arm.id, e.value)
    ensures ArmMeans(n, arm, e)
  {
    var i :| 0 <= i < |Alternatives(arm.pat)| && ExtractKind(Alternatives(arm.pat)[i]) == Some(WildGroup);
    WildSaysAll(n, Alternatives(arm.pat)[i], e);
  }

  lemma {:induction false} ProjectionNonempty(arms: seq<Arm>, a: nat, kind: GroupKind)
    requires a < |arms| && HasKind(Alternatives(arms[a].pat), kind)
    ensures Projection(arms, kind) != []
    decreases |arms|
  {
    var m := |arms| - 1;
    if a == m {
      ChosenIffHasKind(Alternatives(arms[m].pat), kind);
    } else {
      ProjectionNonempty(arms[..m], a, kind);
    }
  }

  /** The wildcard group holds the wildcard arms, in order. */
  lemma {:induction false} ProjectionOfWild(arms: seq<Arm>)
    ensures FirstWild(arms) ==
            if Projection(arms, WildGroup) == [] then None else Some(Projection(arms, WildGroup)[0].id)
  {
    if arms != [] {
      ProjectionOfWild(arms[..|arms| - 1]);
      ChosenIffHasKind(Alternatives(arms[|arms| - 1].pat), WildGroup);
    }
  }

  lemma {:induction false} ArmIsProjected(arms: seq<Arm>, a: nat, kind: GroupKind) returns (j: nat)
    requires a < |arms| && HasKind(Alternatives(arms[a].pat), kind)
    ensures j < |Projection(arms, kind)| && Piece(arms[a], kind) == [Projection(arms, kind)[j]]
    ensures Projection(arms, kind)[j].id == arms[a].id
    decreases |arms|
  {
    var m := |arms| - 1;
    var before, piece := Projection(arms[..m], kind), Piece(arms[m], kind);
    assert Projection(arms, kind) == before + piece;
    if a < m {
      assert arms[..m][a] == arms[a];
      j := ArmIsProjected(arms[..m], a, kind);
      assert (before + piece)[j] == before[j];
    } else {
      PieceOfKind(arms[m], kind);
      j := |before|;
      assert (before + piece)[j] == piece[0];
    }
  }

  lemma PieceOfKind(arm: Arm, kind: GroupKind)
    requires HasKind(Alternatives(arm.pat), kind)
    ensures |Piece(arm, kind)| == 1 && Piece(arm, kind)[0].id == arm.id
  {
    ChosenIffHasKind(Alternatives(arm.pat), kind);
  }

  // === The theorem ===

  /** The first group about a type. */
  ghost predicate IsFirstGroup(n: Names, groups: seq<MessageGroup>, typeId: TypeId, g: nat) {
    && IsAbout(n, groups, g, typeId)
    && forall h :: 0 <= h < g ==> !IsAbout(n, groups, h, typeId)
  }

  ghost predicate IsAbout(n: Names, groups: seq<MessageGroup>, g: nat, typeId: TypeId) {
    g < |groups| && groups[g].kind != WildGroup && TypeOf(n, groups[g].kind) == typeId
  }

  /** `a` does not come after `b`, if there is a `b`. */
  predicate NotAfter(a: Option<nat>, b: Option<nat>) {
    b.Some? ==> a.Some? && a.value <= b.value
  }

  /** For every listed type the arms of its first spelling come before those that spell it otherwise. */
  ghost predicate SpellingsInOrder(n: Names, arms: seq<Arm>, groups: seq<MessageGroup>) {
    forall e: Envelope, g: nat, h: nat :: IsFirstGroup(n, groups, e.typeId, g) && IsAbout(n, groups, h, e.typeId) ==>
      NotAfter(FirstTyped(n, arms, groups[g].kind, e), FirstTyped(n, arms, groups[h].kind, e))
  }

  /** For every listed type the arms of its first spelling come before the wildcard. */
  ghost predicate CoveredBeforeWild(n: Names, arms: seq<Arm>, groups: seq<MessageGroup>) {
    forall e: Envelope, g: nat :: IsFirstGroup(n, groups, e.typeId, g) ==>
      NotAfter(FirstTyped(n, arms, groups[g].kind, e), FirstWild(arms))
  }

  /** No arm about another type with a wildcard in it comes before the arm that the chain takes. */
  ghost predicate StraysAreLate(n: Names, arms: seq<Arm>, groups: seq<MessageGroup>) {
    && (forall e: Envelope, g: nat :: IsFirstGroup(n, groups, e.typeId, g) ==>
          NotAfter(FirstTyped(n, arms, groups[g].kind, e), FirstStray(n, arms, e)))
    && (forall e: Envelope :: Unlisted(n, groups, e.typeId) ==> NotAfter(FirstWild(arms), FirstStray(n, arms, e)))
  }

  ghost predicate Unlisted(n: Names, groups: seq<MessageGroup>, typeId: TypeId) {
    forall h: nat :: !IsAbout(n, groups, h, typeId)
  }

  /** What the chain takes of an envelope of a listed type comes before everything else that matches it. */
  ghost predicate FirstComesFirst(n: Names, arms: seq<Arm>, groups: seq<MessageGroup>, e: Envelope, g: nat)
    requires g < |groups|
  {
    var t := FirstTyped(n, arms, groups[g].kind, e);
    && NotAfter(t, FirstWild(arms)) && NotAfter(t, FirstStray(n, arms, e))
    && forall h: nat :: IsAbout(n, groups, h, e.typeId) ==> NotAfter(t, FirstTyped(n, arms, groups[h].kind, e))
  }

  lemma {:induction false} DispatchFinds(n: Names, groups: seq<MessageGroup>, e: Envelope, g: nat, h: nat)
    requires Accepted(n, groups) && g <= h && IsFirstGroup(n, groups, e.typeId, h)
    ensures Dispatch(n, groups, e, g) == FirstNative(n, groups[h].arms, e.value)
    decreases h - g
  {
    if g < h {
      assert groups[g].kind != WildGroup && !IsAbout(n, groups, g, e.typeId);
      DispatchFinds(n, groups, e, g + 1, h);
    }
  }

  lemma {:induction false} FirstGroupExists(n: Names, groups: seq<MessageGroup>, typeId: TypeId, h: nat) returns (g: nat)
    requires IsAbout(n, groups, h, typeId)
    ensures g <= h && IsFirstGroup(n, groups, typeId, g)
    decreases h
  {
    if k :| 0 <= k < h && IsAbout(n, groups, k, typeId) {
      g := FirstGroupExists(n, groups, typeId, k);
    } else {
      g := h;
    }
  }

  lemma {:induction false} DispatchFallsThrough(n: Names, groups: seq<MessageGroup>, e: Envelope, g: nat)
    requires Accepted(n, groups) && g <= |groups|
    requires forall h :: 0 <= h < |groups| && groups[h].kind != WildGroup ==> TypeOf(n, groups[h].kind) != e.typeId
    ensures Dispatch(n, groups, e, g) ==
            if g < |groups| && groups[|groups| - 1].kind == WildGroup then Some(groups[|groups| - 1].arms[0].id) else None
    decreases |groups| - g
  {
    if g < |groups| { DispatchFallsThrough(n, groups, e, g + 1); }
  }

  lemma WildGuardHolds(n: Names, arms: seq<Arm>, groups: seq<MessageGroup>, a: nat, v: Value)
    requires Grouped(groups, arms) && Numbered(arms) && Accepted(n, groups) && a < |arms| && IsWild(arms[a])
    ensures n.guard(a, v)
  {
    ProjectionNonempty(arms, a, WildGroup);
    var g := GroupOf(arms, groups, WildGroup);
    var j := ArmIsProjected(arms, a, WildGroup);
    assert j == 0 && groups[g].arms[0].id == a;
  }

  lemma GroupOf(arms: seq<Arm>, groups: seq<MessageGroup>, kind: GroupKind) returns (g: nat)
    requires Grouped(groups, arms) && Projection(arms, kind) != []
    ensures g < |groups| && groups[g].kind == kind && groups[g].arms == Projection(arms, kind)
  {
    g :| 0 <= g < |groups| && groups[g].kind == kind;
  }

  /** On envelopes of a listed type the chain takes the first arm of the first spelling. */
  lemma DispatchTyped(n: Names, arms: seq<Arm>, groups: seq<MessageGroup>, g: nat, e: Envelope)
    requires Grouped(groups, arms) && WellFormed(arms) && Accepted(n, groups) && IsFirstGroup(n, groups, e.typeId, g)
    ensures FirstTyped(n, arms, groups[g].kind, e).Some?
    ensures Dispatch(n, groups, e, 0) == FirstTyped(n, arms, groups[g].kind, e)
  {
    DispatchFinds(n, groups, e, 0, g);
    assert groups[g].arms == Projection(arms, groups[g].kind);
    ProjectionNative(n, arms, groups[g].kind, e);
  }

  /** Whoever reads from top to bottom takes no later arm than any spelling, the wildcard or a stray. */
  lemma FirstMatchIsEarly(n: Names, arms: seq<Arm>, groups: seq<MessageGroup>, h: nat, e: Envelope)
    requires Grouped(groups, arms) && WellFormed(arms) && Accepted(n, groups) && h < |groups|
    ensures NotAfter(FirstMatch(n, arms, e), FirstTyped(n, arms, groups[h].kind, e))
  {
    FirstMatchIsFirst(n, arms, e);
    var typed := FirstTyped(n, arms, groups[h].kind, e);
    FirstTypedIsFirst(n, arms, groups[h].kind, e);
    if typed.Some? { TypedArmMeans(n, arms[typed.value], groups[h].kind, e); }
  }

  lemma FirstMatchIsEarlier(n: Names, arms: seq<Arm>, groups: seq<MessageGroup>, e: Envelope)
    requires Grouped(groups, arms) && WellFormed(arms) && Accepted(n, groups)
    ensures NotAfter(FirstMatch(n, arms, e), FirstWild(arms)) && NotAfter(FirstMatch(n, arms, e), FirstStray(n, arms, e))
  {
    FirstMatchIsFirst(n, arms, e);
    var wild, stray := FirstWild(arms), FirstStray(n, arms, e);
    FirstWildIsFirst(arms);
    FirstStrayIsFirst(n, arms, e);
    if wild.Some? {
      WildGuardHolds(n, arms, groups, wild.value, e.value);
      WildArmMeans(n, arms[wild.value], e);
    }
    if stray.Some? { StrayArmMeans(n, arms[stray.value], e); }
  }

  /** The arm taken by reading from top to bottom is the first of some spelling, the wildcard or a stray. */
  lemma FirstMatchIsOneOfThem(n: Names, arms: seq<Arm>, groups: seq<MessageGroup>, e: Envelope) returns (h: nat)
    requires Grouped(groups, arms) && WellFormed(arms) && Accepted(n, groups) && FirstMatch(n, arms, e).Some?
    ensures || NotAfter(FirstWild(arms), FirstMatch(n, arms, e))
            || NotAfter(FirstStray(n, arms, e), FirstMatch(n, arms, e))
            || (IsAbout(n, groups, h, e.typeId)
                && NotAfter(FirstTyped(n, arms, groups[h].kind, e), FirstMatch(n, arms, e)))
  {
    FirstMatchIsFirst(n, arms, e);
    var a := FirstMatch(n, arms, e).value;
    var kind := ArmIsOneOfThree(n, arms, groups, a, e);
    ProjectionNonempty(arms, a, kind);
    h := GroupOf(arms, groups, kind);
    FirstWildIsFirst(arms);
    FirstStrayIsFirst(n, arms, e);
    FirstTypedIsFirst(n, arms, kind, e);
  }

  /** On envelopes of any other type the chain takes the wildcard arm, if there is one. */
  lemma DispatchOther(n: Names, arms: seq<Arm>, groups: seq<MessageGroup>, e: Envelope)
    requires Grouped(groups, arms) && Accepted(n, groups) && Unlisted(n, groups, e.typeId)
    ensures Dispatch(n, groups, e, 0) == FirstWild(arms)
  {
    assert forall h: nat :: h < |groups| && groups[h].kind != WildGroup ==> IsAbout(n, groups, h, TypeOf(n, groups[h].kind));
    DispatchFallsThrough(n, groups, e, 0);
    ProjectionOfWild(arms);
    if Projection(arms, WildGroup) != [] {
      var g := GroupOf(arms, groups, WildGroup);
    }
  }

  /** On such envelopes the two agree exactly if no stray stands before the wildcard. */
  lemma OtherAgreeIff(n: Names, arms: seq<Arm>, groups: seq<MessageGroup>, e: Envelope)
    requires Grouped(groups, arms) && WellFormed(arms) && Accepted(n, groups) && Unlisted(n, groups, e.typeId)
    ensures Dispatch(n, groups, e, 0) == FirstMatch(n, arms, e) <==> NotAfter(FirstWild(arms), FirstStray(n, arms, e))
  {
    DispatchOther(n, arms, groups, e);
    FirstMatchIsEarlier(n, arms, groups, e);
    if FirstMatch(n, arms, e).Some? {
      var h := FirstMatchIsOneOfThem(n, arms, groups, e);
    }
  }

  /** The chain and the arms agree on every envelope. */
  ghost predicate SameMeaning(n: Names, arms: seq<Arm>, groups: seq<MessageGroup>)
    requires forall h :: 0 <= h < |groups| ==> groups[h].arms != []
  {
    forall e: Envelope :: Dispatch(n, groups, e, 0) == FirstMatch(n, arms, e)
  }

  /** On envelopes of a listed type the two agree exactly if nothing stands before the first spelling. */
  lemma TypedAgreeIff(n: Names, arms: seq<Arm>, groups: seq<MessageGroup>, e: Envelope, g: nat)
    requires Grouped(groups, arms) && WellFormed(arms) && Accepted(n, groups) && IsFirstGroup(n, groups, e.typeId, g)
    ensures Dispatch(n, groups, e, 0) == FirstMatch(n, arms, e) <==> FirstComesFirst(n, arms, groups, e, g)
  {
    if Dispatch(n, groups, e, 0) == FirstMatch(n, arms, e) { AgreedComesFirst(n, arms, groups, e, g); }
    if FirstComesFirst(n, arms, groups, e, g) {
      DispatchTyped(n, arms, groups, g, e);
      FirstMatchIsEarly(n, arms, groups, g, e);
      var h := FirstMatchIsOneOfThem(n, arms, groups, e);
    }
  }

  lemma AgreedComesFirst(n: Names, arms: seq<Arm>, groups: seq<MessageGroup>, e: Envelope, g: nat)
    requires Grouped(groups, arms) && WellFormed(arms) && Accepted(n, groups) && IsFirstGroup(n, groups, e.typeId, g)
    requires Dispatch(n, groups, e, 0) == FirstMatch(n, arms, e)
    ensures FirstComesFirst(n, arms, groups, e, g)
  {
    DispatchTyped(n, arms, groups, g, e);
    FirstMatchIsEarlier(n, arms, groups, e);
    forall h: nat | IsAbout(n, groups, h, e.typeId)
      ensures NotAfter(FirstTyped(n, arms, groups[g].kind, e), FirstTyped(n, arms, groups[h].kind, e))
    {
      FirstMatchIsEarly(n, arms, groups, h, e);
    }
  }

  /** Agreement on one envelope follows from the three orders. */
  lemma InOrderAgrees(n: Names, arms: seq<Arm>, groups: seq<MessageGroup>, e: Envelope)
    requires Grouped(groups, arms) && WellFormed(arms) && Accepted(n, groups)
    requires SpellingsInOrder(n, arms, groups) && CoveredBeforeWild(n, arms, groups) && StraysAreLate(n, arms, groups)
    ensures Dispatch(n, groups, e, 0) == FirstMatch(n, arms, e)
  {
    if h: nat :| IsAbout(n, groups, h, e.typeId) {
      var g := FirstGroupExists(n, groups, e.typeId, h);
      assert FirstComesFirst(n, arms, groups, e, g);
      TypedAgreeIff(n, arms, groups, e, g);
    } else {
      assert Unlisted(n, groups, e.typeId);
      OtherAgreeIff(n, arms, groups, e);
    }
  }

  lemma SameMeaningIsInOrder(n: Names, arms: seq<Arm>, groups: seq<MessageGroup>)
    requires Grouped(groups, arms) && WellFormed(arms) && Accepted(n, groups) && SameMeaning(n, arms, groups)
    ensures SpellingsInOrder(n, arms, groups) && CoveredBeforeWild(n, arms, groups) && StraysAreLate(n, arms, groups)
  {
    forall e: Envelope, g: nat | IsFirstGroup(n, groups, e.typeId, g)
      ensures FirstComesFirst(n, arms, groups, e, g)
    {
      assert Dispatch(n, groups, e, 0) == FirstMatch(n, arms, e);
      TypedAgreeIff(n, arms, groups, e, g);
    }
    forall e: Envelope | Unlisted(n, groups, e.typeId)
      ensures NotAfter(FirstWild(arms), FirstStray(n, arms, e))
    {
      assert Dispatch(n, groups, e, 0) == FirstMatch(n, arms, e);
      OtherAgreeIff(n, arms, groups, e);
    }
  }

  /**
   A chain that compiles picks the same arm as reading the arms from top to bottom for every
   envelope, exactly when three things hold. The arms of the first spelling of a type come before
   those that spell it otherwise, and before the wildcard; and no arm about another type that has a
   wildcard in it, as in `(A { .. } | _, token)`, comes before what the chain takes.
   */
  lemma MeaningPreservedIff(n: Names, arms: seq<Arm>, groups: seq<MessageGroup>)
    requires Grouped(groups, arms) && WellFormed(arms) && Accepted(n, groups)
    ensures SameMeaning(n, arms, groups) <==>
            SpellingsInOrder(n, arms, groups) && CoveredBeforeWild(n, arms, groups) && StraysAreLate(n, arms, groups)
  {
    if SpellingsInOrder(n, arms, groups) && CoveredBeforeWild(n, arms, groups) && StraysAreLate(n, arms, groups) {
      forall e: Envelope
        ensures Dispatch(n, groups, e, 0) == FirstMatch(n, arms, e)
      {
        InOrderAgrees(n, arms, groups, e);
      }
    }
    if SameMeaning(n, arms, groups) { SameMeaningIsInOrder(n, arms, groups); }
  }

  // === Special cases ===

  predicate WildIsLast(arms: seq<Arm>) {
    forall a :: 0 <= a < |arms| - 1 ==> !IsWild(arms[a])
  }

  /** No alternative about a type has a wildcard in it. */
  predicate NoWildInside(n: Names, arms: seq<Arm>) {
    forall a, i :: 0 <= a < |arms| && 0 <= i < |Alternatives(arms[a].pat)| ==>
      var alternative := Alternatives(arms[a].pat)[i];
      HasWildInside(n, alternative) ==> ExtractKind(alternative) == Some(WildGroup)
  }

  lemma WildLastIsCovered(n: Names, arms: seq<Arm>, groups: seq<MessageGroup>)
    requires Grouped(groups, arms) && WellFormed(arms) && Accepted(n, groups) && WildIsLast(arms)
    ensures CoveredBeforeWild(n, arms, groups)
  {
    forall e: Envelope, g: nat | IsFirstGroup(n, groups, e.typeId, g)
      ensures NotAfter(FirstTyped(n, arms, groups[g].kind, e), FirstWild(arms))
    {
      DispatchTyped(n, arms, groups, g, e);
      FirstTypedIsFirst(n, arms, groups[g].kind, e);
      FirstWildIsFirst(arms);
    }
  }

  lemma OneSpellingIsInOrder(n: Names, arms: seq<Arm>, groups: seq<MessageGroup>)
    requires OneSpelling(n, groups)
    ensures SpellingsInOrder(n, arms, groups)
  {
    forall e: Envelope, g: nat, h: nat | IsFirstGroup(n, groups, e.typeId, g) && IsAbout(n, groups, h, e.typeId)
      ensures g == h
    {
    }
  }

  lemma NoWildInsideIsLate(n: Names, arms: seq<Arm>, groups: seq<MessageGroup>)
    requires Numbered(arms) && NoWildInside(n, arms)
    ensures StraysAreLate(n, arms, groups)
  {
    forall e: Envelope
      ensures FirstStray(n, arms, e) == None
    {
      FirstStrayIsFirst(n, arms, e);
    }
  }

  /** Without a wildcard inside a typed pattern, the other two conditions remain. */
  lemma NoWildInsideMeaningIff(n: Names, arms: seq<Arm>, groups: seq<MessageGroup>)
    requires Grouped(groups, arms) && WellFormed(arms) && Accepted(n, groups) && NoWildInside(n, arms)
    ensures SameMeaning(n, arms, groups) <==> SpellingsInOrder(n, arms, groups) && CoveredBeforeWild(n, arms, groups)
  {
    MeaningPreservedIff(n, arms, groups);
    NoWildInsideIsLate(n, arms, groups);
  }

  /** With the wildcard arm last, or without one, only another spelling or a stray can do harm. */
  lemma WildLastMeaningIff(n: Names, arms: seq<Arm>, groups: seq<MessageGroup>)
    requires Grouped(groups, arms) && WellFormed(arms) && Accepted(n, groups) && WildIsLast(arms)
    ensures SameMeaning(n, arms, groups) <==> SpellingsInOrder(n, arms, groups) && StraysAreLate(n, arms, groups)
  {
    MeaningPreservedIff(n, arms, groups);
    WildLastIsCovered(n, arms, groups);
  }

  /** With every type spelled in one way, only an arm behind the wildcard or a stray can do harm. */
  lemma OneSpellingMeaningIff(n: Names, arms: seq<Arm>, groups: seq<MessageGroup>)
    requires Grouped(groups, arms) && WellFormed(arms) && Accepted(n, groups) && OneSpelling(n, groups)
    ensures SameMeaning(n, arms, groups) <==> CoveredBeforeWild(n, arms, groups) && StraysAreLate(n, arms, groups)
  {
    MeaningPreservedIff(n, arms, groups);
    OneSpellingIsInOrder(n, arms, groups);
  }

  /** With the wildcard arm last, every type spelled in one way and no wildcard inside, the meaning is preserved. */
  lemma WildLastPreservesMeaning(n: Names, arms: seq<Arm>, groups: seq<MessageGroup>, e: Envelope)
    requires Grouped(groups, arms) && WellFormed(arms) && Accepted(n, groups)
    requires WildIsLast(arms) && OneSpelling(n, groups) && NoWildInside(n, arms)
    ensures Dispatch(n, groups, e, 0) == FirstMatch(n, arms, e)
  {
    WildLastIsCovered(n, arms, groups);
    OneSpellingIsInOrder(n, arms, groups);
    NoWildInsideIsLate(n, arms, groups);
    InOrderAgrees(n, arms, groups, e);
  }

  lemma {:induction false} NoEarlyWild(arms: seq<Arm>)
    requires forall a :: 0 <= a < |arms| ==> !IsWild(arms[a])
    ensures FirstWild(arms) == None
  {
    if arms != [] { NoEarlyWild(arms[..|arms| - 1]); }
  }

  // === Why the provisos are needed ===

  lemma PieceOfOne(arm: Arm, kind: GroupKind)
    requires !arm.pat.OrPat?
    ensures Piece(arm, kind) == if ExtractKind(arm.pat) == Some(kind) then [arm.(pat := Refine(arm.pat))] else []
  {
    assert Alternatives(arm.pat)[..0] == [] && Chosen([], kind) == [];
  }

  lemma ProjectionOfThree(arms: seq<Arm>, kind: GroupKind)
    requires |arms| == 3
    ensures Projection(arms, kind) == Piece(arms[0], kind) + Piece(arms[1], kind) + Piece(arms[2], kind)
  {
    assert arms[..2][..1] == arms[..1] && arms[..1][..0] == [];
    assert Projection([], kind) == [];
    assert Projection(arms[..1], kind) == Piece(arms[0], kind);
    assert Projection(arms[..2], kind) == Projection(arms[..1], kind) + Piece(arms[1], kind);
  }

  lemma FirstMatchOfThree(n: Names, arms: seq<Arm>, e: Envelope)
    requires |arms| == 3 && !ArmMeans(n, arms[0], e) && ArmMeans(n, arms[1], e)
    ensures FirstMatch(n, arms, e) == Some(arms[1].id)
  {
    assert arms[..2][..1] == arms[..1] && arms[..1][..0] == [];
    assert FirstMatch(n, [], e) == None;
    assert FirstMatch(n, arms[..1], e) == None;
    assert FirstMatch(n, arms[..2], e) == Some(arms[1].id);
  }

  lemma FirstNativeOfTwo(n: Names, arms: seq<Arm>, v: Value)
    requires |arms| == 2
    ensures FirstNative(n, arms, v) ==
            if NativeArm(n, arms[0], v) then Some(arms[0].id)
            else if NativeArm(n, arms[1], v) then Some(arms[1].id) else None
  {
    assert arms[..1][..0] == [] && FirstNative(n, [], v) == None;
    assert FirstNative(n, arms[..1], v) == if NativeArm(n, arms[0], v) then Some(arms[0].id) else None;
  }

  const A := Ident("A", true)
  const B := Ident("B", true)

  const structA := Arm(Struct([A], 1), 0)
  const nameA := Arm(Binding(A, None), 2)

  /** `A { .. } => 0, <middle> => 1, A => 2` */
  function Three(middle: Pat): seq<Arm> {
    [structA, Arm(middle, 1), nameA]
  }

  /** The two groups of such a match. */
  function TwoGroups(middle: Pat, kind: GroupKind): seq<MessageGroup> {
    [MessageGroup(Regular([A]), [structA, Arm(Wild, 2)]), MessageGroup(kind, [Arm(middle, 1)])]
  }

  lemma ThreeAreGrouped(middle: Pat, kind: GroupKind)
    requires !middle.OrPat? && ExtractKind(middle) == Some(kind) && Refine(middle) == middle && kind != Regular([A])
    ensures Grouped(TwoGroups(middle, kind), Three(middle))
  {
    var arms, groups := Three(middle), TwoGroups(middle, kind);
    forall k
      ensures Projection(arms, k) ==
              if k == Regular([A]) then groups[0].arms else if k == kind then groups[1].arms else []
    {
      ProjectionOfExample(middle, kind, k);
    }
    assert groups[0].kind == Regular([A]) && groups[1].kind == kind;
  }

  lemma ProjectionOfExample(middle: Pat, kind: GroupKind, k: GroupKind)
    requires !middle.OrPat? && ExtractKind(middle) == Some(kind) && Refine(middle) == middle && kind != Regular([A])
    ensures Projection(Three(middle), k) ==
            if k == Regular([A]) then TwoGroups(middle, kind)[0].arms
            else if k == kind then TwoGroups(middle, kind)[1].arms else []
  {
    var arms := Three(middle);
    ProjectionOfThree(arms, k);
    PiecesOfA(k);
    PieceOfOne(arms[1], k);
  }

  lemma PiecesOfA(k: GroupKind)
    ensures Piece(structA, k) == if k == Regular([A]) then [structA] else []
    ensures Piece(nameA, k) == if k == Regular([A]) then [Arm(Wild, 2)] else []
  {
    PieceOfOne(structA, k);
    PieceOfOne(nameA, k);
  }

  lemma ThreeAreWellFormed(middle: Pat)
    requires !middle.OrPat? && !Faulty(middle)
    ensures WellFormed(Three(middle))
  {
    var arms := Three(middle);
    forall a | 0 <= a < 3
      ensures Alternatives(arms[a].pat) == [arms[a].pat] && !Faulty(arms[a].pat)
    {
      assert a == 0 || a == 1 || a == 2;
    }
  }

  /** `A { .. }` matches nothing, everything else matches all; all types have id 1. */
  function Resolve(): Names {
    Names(path => |path| == 1, path => 1, path => 1, path => UnitStruct, (path, fields, v) => path != [A], (arm, v) => true)
  }

  lemma ThreeAreAccepted(middle: Pat, kind: GroupKind)
    requires (middle == Wild && kind == WildGroup) || (middle == Struct([B], 1) && kind == Regular([B]))
    ensures Accepted(Resolve(), TwoGroups(middle, kind))
    ensures Dispatch(Resolve(), TwoGroups(middle, kind), Envelope(1, 0), 0) == Some(2)
  {
    var n, groups := Resolve(), TwoGroups(middle, kind);
    assert [A] != [B] by { assert [A][0].text != [B][0].text; }
    forall v: Value
      ensures FirstNative(n, groups[0].arms, v) == Some(2) && FirstNative(n, groups[1].arms, v) == Some(1)
    {
      FirstNativeOfTwo(n, groups[0].arms, v);
      assert groups[1].arms[..0] == [] && FirstNative(n, [], v) == None;
    }
    assert TypeOf(n, groups[0].kind) == 1;
  }

  lemma SecondOfThreeMatches(middle: Pat)
    requires middle == Wild || middle == Struct([B], 1)
    ensures FirstMatch(Resolve(), Three(middle), Envelope(1, 0)) == Some(1)
  {
    var n, arms, e := Resolve(), Three(middle), Envelope(1, 0);
    assert [A] != [B] by { assert [A][0].text != [B][0].text; }
    assert Says(n, Alternatives(arms[1].pat)[0], e);
    assert !Says(n, Alternatives(arms[0].pat)[0], e);
    FirstMatchOfThree(n, arms, e);
  }

  /** `A { .. } => 0, _ => 1, A => 2` compiles, but an `A` refused by the first arm goes to the third. */
  lemma ArmBehindWildcardIsTaken()
    ensures var n, arms, groups := Resolve(), Three(Wild), TwoGroups(Wild, WildGroup);
            && Grouped(groups, arms) && WellFormed(arms) && Accepted(n, groups) && OneSpelling(n, groups)
            && Dispatch(n, groups, Envelope(1, 0), 0) == Some(2) && FirstMatch(n, arms, Envelope(1, 0)) == Some(1)
  {
    ThreeAreGrouped(Wild, WildGroup);
    ThreeAreWellFormed(Wild);
    ThreeAreAccepted(Wild, WildGroup);
    SecondOfThreeMatches(Wild);
  }

  /** If `A` and `B` name one type, `A { .. } => 0, B { .. } => 1, A => 2` skips the second arm. */
  lemma TwoSpellingsDiffer()
    ensures var n, arms, groups := Resolve(), Three(Struct([B], 1)), TwoGroups(Struct([B], 1), Regular([B]));
            && Grouped(groups, arms) && WellFormed(arms) && Accepted(n, groups) && FirstWild(arms) == None
            && Dispatch(n, groups, Envelope(1, 0), 0) == Some(2) && FirstMatch(n, arms, Envelope(1, 0)) == Some(1)
  {
    var middle, kind := Struct([B], 1), Regular([B]);
    assert [A] != [B] by { assert [A][0].text != [B][0].text; }
    ThreeAreGrouped(middle, kind);
    ThreeAreWellFormed(middle);
    ThreeAreAccepted(middle, kind);
    SecondOfThreeMatches(middle);
    forall a | 0 <= a < 3
      ensures !IsWild(Three(middle)[a])
    {
      assert a == 0 || a == 1 || a == 2;
    }
    NoEarlyWild(Three(middle));
  }

  // `(A { x: 1 } | _, token) => 0, _ => 1`

  const token := Ident("token", false)
  const strayArm := Arm(Tuple([OrPat([Struct([A], 1), Wild]), Binding(token, None)]), 0)
  const wildArm := Arm(Wild, 1)
  const strayGroups := [MessageGroup(Request([A]), [strayArm]), MessageGroup(WildGroup, [wildArm])]

  /** `A` has id 1, and no `A` has the field. */
  function ResolveA(): Names {
    Names(path => |path| == 1, path => 1, path => 1, path => UnitStruct, (path, fields, v) => false, (arm, v) => true)
  }

  lemma ProjectionOfTwo(arms: seq<Arm>, kind: GroupKind)
    requires |arms| == 2
    ensures Projection(arms, kind) == Piece(arms[0], kind) + Piece(arms[1], kind)
  {
    assert arms[..1][..0] == [] && Projection([], kind) == [];
    assert Projection(arms[..1], kind) == Piece(arms[0], kind);
  }

  lemma StrayIsRequest()
    ensures ExtractKind(strayArm.pat) == Some(Request([A])) && !Faulty(strayArm.pat) && Refine(strayArm.pat) == strayArm.pat
    ensures HasWildInside(ResolveA(), strayArm.pat)
  {
    var inner := strayArm.pat.elems[0];
    assert ExtractKind(inner.cases[0]) == Some(Regular([A]));
    assert FirstKind(inner.cases, 0) == Some(Regular([A]));
    assert !Reports(inner.cases[0]) && !FirstReports(inner.cases, 0) && !Reports(inner);
    assert token.text[0] == 't' && !("_" <= token.text);
    assert !Reports(strayArm.pat);
    assert CatchesAll(ResolveA(), inner.cases[1]);
    RefinedIsSame(strayArm.pat);
  }

  lemma StrayProjection(k: GroupKind)
    ensures Projection([strayArm, wildArm], k)
         == if k == Request([A]) then [strayArm] else if k == WildGroup then [wildArm] else []
  {
    StrayIsRequest();
    ProjectionOfTwo([strayArm, wildArm], k);
    PieceOfOne(strayArm, k);
    PieceOfOne(wildArm, k);
  }

  lemma StrayIsWellFormed()
    ensures WellFormed([strayArm, wildArm]) && WildIsLast([strayArm, wildArm])
  {
    StrayIsRequest();
    assert Alternatives(strayArm.pat) == [strayArm.pat] && Alternatives(wildArm.pat) == [Wild];
    assert !HasKind(Alternatives(strayArm.pat), WildGroup);
  }

  lemma StrayIsGrouped()
    ensures Grouped(strayGroups, [strayArm, wildArm])
  {
    var arms := [strayArm, wildArm];
    forall k
      ensures Projection(arms, k) == if k == Request([A]) then [strayArm] else if k == WildGroup then [wildArm] else []
    {
      StrayProjection(k);
    }
    assert strayGroups[0].kind == Request([A]) && strayGroups[1].kind == WildGroup;
  }

  lemma StrayIsAccepted()
    ensures Accepted(ResolveA(), strayGroups) && OneSpelling(ResolveA(), strayGroups)
    ensures Dispatch(ResolveA(), strayGroups, Envelope(2, 0), 0) == Some(1)
  {
    var n := ResolveA();
    var inner := strayArm.pat.elems[0];
    assert Compiles(n, inner, 1) && Compiles(n, strayArm.pat, 1);
    forall v: Value
      ensures FirstNative(n, strayGroups[0].arms, v) == Some(0)
    {
      assert Native(n, inner.cases[1], v);
      assert Native(n, inner, v) && NativeArm(n, strayArm, v);
      assert [strayArm][..0] == [] && FirstNative(n, [], v) == None;
    }
    assert Dispatch(n, strayGroups, Envelope(2, 0), 1) == Some(1);
  }

  /**
   `(A { x: 1 } | _, token) => 0, _ => 1` compiles, has its wildcard last and one spelling of each
   type. A message of another type goes to the second arm, although the first matches it.
   */
  lemma WildcardInsideIsMissed()
    ensures var n, arms := ResolveA(), [strayArm, wildArm];
            && Grouped(strayGroups, arms) && WellFormed(arms) && Accepted(n, strayGroups)
            && WildIsLast(arms) && OneSpelling(n, strayGroups)
            && Dispatch(n, strayGroups, Envelope(2, 0), 0) == Some(1) && FirstMatch(n, arms, Envelope(2, 0)) == Some(0)
  {
    var n, arms, e := ResolveA(), [strayArm, wildArm], Envelope(2, 0);
    StrayIsGrouped();
    StrayIsWellFormed();
    StrayIsAccepted();
    StrayIsRequest();
    CatchesAllMeans(n, strayArm.pat, e);
    assert Says(n, Alternatives(strayArm.pat)[0], e);
    assert arms[..1][..0] == [] && FirstMatch(n, [], e) == None;
    assert FirstMatch(n, arms[..1], e) == Some(0);
  }
}
