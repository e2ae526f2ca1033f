/** Which parser a query text goes to (`parse_with_mode` and the prefix dispatch of
    `call.rs`, `ddl.rs` and `admin.rs`), and the parse cache in front of it.

    The grammars behind the prefixes are parameters: nothing below depends on what
    they accept. */
module Statements {
  import opened Texts
  import Clauses
  import Lexer
  import Preprocessor
  import Removal
  import Strict

  datatype Statement =
    | Query(ast: nat)
    | Mutation(ast: nat)
    | Pipeline(ast: nat, readOnly: bool)
    | ConstReturn(ast: nat)
    | Admin(ast: nat)
    | Ddl(ast: nat)
    | Call(ast: nat, registryScoped: bool)

  /** `Ok(None)`, `Ok(Some(_))` and `Err(_)` of the `try_parse_*` functions. */
  datatype Attempt = NotMine | Parsed(stmt: Statement) | Malformed

  /** The parsers behind the prefixes. `show` builds the statements that have no
      grammar beyond their exact text; `gql` is the core parser, which yields only
      the four statement kinds it knows. */
  datatype Grammar = Grammar(
    call: Text -> Option<(nat, bool)>,
    ddl: Text -> Option<nat>,
    admin: Text -> Option<nat>,
    show: Text -> nat,
    gql: Text -> Option<Statement>)

  datatype Mode = Gql | CypherCompat | StrictGql

  /** `input.trim_end_matches(';').trim()` */
  function Trimmed(s: Text): Text {
    Trim(DropSemicolons(s))
  }

  function DropSemicolons(s: Text): Text {
    if s != [] && s[|s| - 1] == ';' then DropSemicolons(s[..|s| - 1]) else s
  }

  predicate Starts(u: Text, p: Text) {
    OccursAt(u, p, 0)
  }

  // ── The three prefix parsers ──────────────────────────────────────────

  predicate IsCall(u: Text) {
    Starts(u, "CALL ")
  }

  function TryParseCall(g: Grammar, s: Text): Attempt {
    var t := Trimmed(s);
    if !IsCall(Upper(t)) then NotMine
    else
      var r := g.call(t);
      if r.None? then Malformed else Parsed(Call(r.value.0, r.value.1))
  }

  /** The prefixes whose statements the DDL grammar goes on to parse. */
  predicate IsDdlGrammar(u: Text) {
    || Starts(u, "CREATE INDEX ON ") || Starts(u, "CREATE INDEX ON:") || Starts(u, "CREATE INDEX FOR ")
    || Starts(u, "DROP INDEX ON ") || Starts(u, "DROP INDEX ON:")
    || Starts(u, "CREATE CONSTRAINT ON ") || Starts(u, "DROP CONSTRAINT ON ")
    || Starts(u, "ALTER LABEL ")
  }

  predicate IsDdlShow(u: Text) {
    u == "SHOW INDEX INFO" || u == "SHOW CONSTRAINT INFO" || u == "SHOW APPEND ONLY INFO"
  }

  /** Claimed by the DDL parser and refused outright. */
  predicate IsDdlStub(u: Text) {
    !IsDdlGrammar(u) && (Starts(u, "CREATE INDEX") || u == "ALTER LABEL")
  }

  function TryParseDdl(g: Grammar, s: Text): Attempt {
    var t := Trimmed(s);
    var u := Upper(t);
    if IsDdlStub(u) then Malformed
    else if IsDdlShow(u) then Parsed(Ddl(g.show(t)))
    else if IsDdlGrammar(u) then
      var r := g.ddl(t);
      if r.None? then Malformed else Parsed(Ddl(r.value))
    else NotMine
  }

  predicate IsAdminShow(u: Text) {
    u == "SHOW USERS" || u == "SHOW DATABASES" || u == "SHOW GRANTS"
  }

  predicate IsAdmin(u: Text) {
    || Starts(u, "CREATE USER ") || Starts(u, "DROP USER ") || Starts(u, "ALTER USER ")
    || Starts(u, "CREATE DATABASE ") || Starts(u, "DROP DATABASE ")
    || Starts(u, "GRANT ") || Starts(u, "REVOKE ") || Starts(u, "SHOW GRANTS ")
    || IsAdminShow(u)
  }

  function TryParseAdmin(g: Grammar, s: Text): Attempt {
    var t := Trimmed(s);
    var u := Upper(t);
    if !IsAdmin(u) then NotMine
    else if IsAdminShow(u) then Parsed(Admin(g.show(t)))
    else
      var r := g.admin(t);
      if r.None? then Malformed else Parsed(Admin(r.value))
  }

  // ── Disjointness ──────────────────────────────────────────────────────

  predicate CallShape(u: Text) {
    |u| > 1 && u[0] == 'C' && u[1] == 'A'
  }

  predicate DdlShape(u: Text) {
    && |u| > 7
    && match u[0]
       case 'C' => u[1] == 'R' && u[7] in {'I', 'C'}
       case 'D' => u[5] in {'I', 'C'}
       case 'A' => u[6] == 'L'
       case 'S' => u[5] in {'I', 'C', 'A'}
       case _ => false
  }

  predicate AdminShape(u: Text) {
    && |u| > 5
    && match u[0]
       case 'C' => u[1] == 'R' && |u| > 7 && u[7] in {'U', 'D'}
       case 'D' => u[5] in {'U', 'D'}
       case 'A' => |u| > 6 && u[6] == 'U'
       case 'S' => u[5] in {'U', 'D', 'G'}
       case 'G' => true
       case 'R' => true
       case _ => false
  }

  /** A prefix fixes the units of the text it stands in front of. */
  lemma {:induction false} StartsWith(u: Text, p: Text, i: nat)
    requires Starts(u, p) && i < |p|
    ensures |u| >= |p| && u[i] == p[i]
  {
    assert u[0 + i] == p[i];
  }

  lemma {:induction false} CallIsShaped(u: Text)
    requires IsCall(u)
    ensures CallShape(u)
  {
    StartsWith(u, "CALL ", 0);
    StartsWith(u, "CALL ", 1);
  }

  lemma {:induction false} PrefixShape(u: Text, p: Text)
    requires Starts(u, p) && |p| > 7
    ensures |u| > 7 && u[0] == p[0] && u[1] == p[1] && u[5] == p[5] && u[6] == p[6] && u[7] == p[7]
  {
    StartsWith(u, p, 0);
    StartsWith(u, p, 1);
    StartsWith(u, p, 5);
    StartsWith(u, p, 6);
    StartsWith(u, p, 7);
  }

  lemma {:induction false} CreateIsShaped(u: Text)
    requires || Starts(u, "CREATE INDEX ON ") || Starts(u, "CREATE INDEX ON:")
             || Starts(u, "CREATE INDEX FOR ") || Starts(u, "CREATE INDEX")
             || Starts(u, "CREATE CONSTRAINT ON ")
    ensures DdlShape(u)
  {
    if Starts(u, "CREATE INDEX ON ") { PrefixShape(u, "CREATE INDEX ON "); }
    else if Starts(u, "CREATE INDEX ON:") { PrefixShape(u, "CREATE INDEX ON:"); }
    else if Starts(u, "CREATE INDEX FOR ") { PrefixShape(u, "CREATE INDEX FOR "); }
    else if Starts(u, "CREATE INDEX") { PrefixShape(u, "CREATE INDEX"); }
    else { PrefixShape(u, "CREATE CONSTRAINT ON "); }
  }

  lemma {:induction false} DropIsShaped(u: Text)
    requires || Starts(u, "DROP INDEX ON ") || Starts(u, "DROP INDEX ON:")
             || Starts(u, "DROP CONSTRAINT ON ") || Starts(u, "ALTER LABEL ")
    ensures DdlShape(u)
  {
    if Starts(u, "DROP INDEX ON ") { PrefixShape(u, "DROP INDEX ON "); }
    else if Starts(u, "DROP INDEX ON:") { PrefixShape(u, "DROP INDEX ON:"); }
    else if Starts(u, "DROP CONSTRAINT ON ") { PrefixShape(u, "DROP CONSTRAINT ON "); }
    else { PrefixShape(u, "ALTER LABEL "); }
  }

  lemma {:induction false} DdlIsShaped(u: Text)
    requires IsDdlGrammar(u) || IsDdlShow(u) || IsDdlStub(u)
    ensures DdlShape(u)
  {
    if IsDdlShow(u) || u == "ALTER LABEL" {
    } else if || Starts(u, "DROP INDEX ON ") || Starts(u, "DROP INDEX ON:")
              || Starts(u, "DROP CONSTRAINT ON ") || Starts(u, "ALTER LABEL ") {
      DropIsShaped(u);
    } else {
      CreateIsShaped(u);
    }
  }

  lemma {:induction false} AdminIsShaped(u: Text)
    requires IsAdmin(u)
    ensures AdminShape(u)
  {
    if Starts(u, "CREATE USER ") { PrefixShape(u, "CREATE USER "); }
    else if Starts(u, "DROP USER ") { PrefixShape(u, "DROP USER "); }
    else if Starts(u, "ALTER USER ") { PrefixShape(u, "ALTER USER "); }
    else if Starts(u, "CREATE DATABASE ") { PrefixShape(u, "CREATE DATABASE "); }
    else if Starts(u, "DROP DATABASE ") { PrefixShape(u, "DROP DATABASE "); }
    else if Starts(u, "GRANT ") { StartsWith(u, "GRANT ", 0); }
    else if Starts(u, "REVOKE ") { StartsWith(u, "REVOKE ", 0); }
    else if Starts(u, "SHOW GRANTS ") { PrefixShape(u, "SHOW GRANTS "); }
  }

  /** The three parsers claim pairwise disjoint texts, so their order is
      irrelevant. */
  lemma {:induction false} ClaimsAreDisjoint(g: Grammar, s: Text)
    ensures TryParseCall(g, s).NotMine? || TryParseDdl(g, s).NotMine?
    ensures TryParseCall(g, s).NotMine? || TryParseAdmin(g, s).NotMine?
    ensures TryParseDdl(g, s).NotMine? || TryParseAdmin(g, s).NotMine?
  {
    var u := Upper(Trimmed(s));
    if IsCall(u) { CallIsShaped(u); }
    if IsDdlGrammar(u) || IsDdlShow(u) || IsDdlStub(u) { DdlIsShaped(u); }
    if IsAdmin(u) { AdminIsShaped(u); }
  }

  // ── The cascade ───────────────────────────────────────────────────────

  /** A statement, or `None` for any syntax error. */
  type Outcome = Option<Statement>

  ghost function ParseText(g: Grammar, s: Text, mode: Mode): Outcome {
    match mode
    case Gql => g.gql(s)
    case CypherCompat =>
      if Preprocessor.HasCypherConstructs(s) then
        var r := Preprocessor.CypherToGql(s);
        if r.Err? then None else g.gql(r.text)
      else g.gql(s)
    case StrictGql => if Strict.Rejects(s) then None else g.gql(s)
  }

  ghost function ParseSpec(g: Grammar, s: Text, mode: Mode): Outcome {
    var (call, ddl, admin) := (TryParseCall(g, s), TryParseDdl(g, s), TryParseAdmin(g, s));
    if !call.NotMine? then (if call.Parsed? then Some(call.stmt) else None)
    else if !ddl.NotMine? then (if ddl.Parsed? then Some(ddl.stmt) else None)
    else if !admin.NotMine? then (if admin.Parsed? then Some(admin.stmt) else None)
    else ParseText(g, s, mode)
  }

  /** `parse_with_mode` */
  method ParseWithMode(g: Grammar, s: Text, mode: Mode) returns (r: Outcome)
    ensures r == ParseSpec(g, s, mode)
  {
    var call := TryParseCall(g, s);
    if !call.NotMine? {
      return if call.Parsed? then Some(call.stmt) else None;
    }
    var ddl := TryParseDdl(g, s);
    if !ddl.NotMine? {
      return if ddl.Parsed? then Some(ddl.stmt) else None;
    }
    var admin := TryParseAdmin(g, s);
    if !admin.NotMine? {
      return if admin.Parsed? then Some(admin.stmt) else None;
    }
    match mode
    case Gql => return g.gql(s);
    case CypherCompat =>
      var constructs := Preprocessor.ContainsCypherConstructs(s);
      if !constructs {
        return g.gql(s);
      }
      var preprocessed := Preprocessor.Preprocess(s);
      return if preprocessed.Err? then None else g.gql(preprocessed.text);
    case StrictGql =>
      var rejected := Strict.RejectCypherConstructs(s);
      return if rejected then None else g.gql(s);
  }

  /** A text the admin parser accepts is an admin statement in every mode: the
      handler's early test and the full parse cannot disagree. */
  lemma {:induction false} AdminStaysAdmin(g: Grammar, s: Text, mode: Mode)
    requires TryParseAdmin(g, s).Parsed?
    ensures ParseSpec(g, s, mode) == Some(TryParseAdmin(g, s).stmt)
    ensures ParseSpec(g, s, mode).value.Admin?
  {
    ClaimsAreDisjoint(g, s);
  }

  /** Skipping the preprocessor changes the answer exactly on texts without Cypher
      constructs whose first WITH projects and which the core parser accepts. */
  lemma {:induction false} FastPathDiffersExactlyOnProjection(g: Grammar, s: Text)
    ensures var slow := Preprocessor.CypherToGql(s);
      (ParseText(g, s, CypherCompat) != if slow.Err? then None else g.gql(slow.text))
      <==> !Preprocessor.HasCypherConstructs(s) && Preprocessor.HasProjection(s) && g.gql(s).Some?
  {
    if !Preprocessor.HasCypherConstructs(s) {
      Preprocessor.FastPathRefinesSlowPath(s);
    }
  }

  // ── The parse cache ───────────────────────────────────────────────────

  /** `CacheKey`: the language mode is not part of it. */
  datatype CacheKey = CacheKey(query: Text, signature: nat)

  /** `QueryCache`. `Evict` is whatever the cache library drops, whenever. */
  class QueryCache {
    var entries: map<CacheKey, Statement>

    constructor ()
      ensures entries == map[]
    {
      entries := map[];
    }

    method Get(key: CacheKey) returns (r: Outcome)
      ensures r == if key in entries then Some(entries[key]) else None
    {
      r := if key in entries then Some(entries[key]) else None;
    }

    method Insert(key: CacheKey, stmt: Statement)
      modifies this
      ensures entries == old(entries)[key := stmt]
    {
      entries := entries[key := stmt];
    }

    method Evict(gone: set<CacheKey>)
      modifies this
      ensures entries == old(entries) - gone
    {
      entries := entries - gone;
    }

    /** Everything stored is what the parser says in mode `mode`. */
    ghost predicate IsSound(g: Grammar, mode: Mode)
      reads this
    {
      IsSoundTable(g, mode, entries)
    }

    /** `parse_with_mode_cached` */
    method Parse(g: Grammar, s: Text, mode: Mode, signature: nat) returns (r: Outcome)
      modifies this
      ensures var (r', entries') := CachedParse(g, old(entries), s, mode, signature);
              r == r' && entries == entries'
      ensures old(IsSound(g, mode)) ==> r == ParseSpec(g, s, mode) && IsSound(g, mode)
    {
      var key := CacheKey(s, signature);
      SoundHit(g, entries, s, mode, signature);
      r := Get(key);
      if r.Some? {
        return;
      }
      r := ParseWithMode(g, s, mode);
      if r.Some? {
        Insert(key, r.value);
      }
    }
  }

  ghost predicate IsSoundTable(g: Grammar, mode: Mode, entries: map<CacheKey, Statement>) {
    forall key :: key in entries ==> ParseSpec(g, key.query, mode) == Some(entries[key])
  }

  /** One cached parse on the table `entries`. */
  ghost function CachedParse(g: Grammar, entries: map<CacheKey, Statement>, s: Text, mode: Mode, signature: nat)
    : (Outcome, map<CacheKey, Statement>)
  {
    var key := CacheKey(s, signature);
    if key in entries then (Some(entries[key]), entries)
    else
      var r := ParseSpec(g, s, mode);
      (r, if r.Some? then entries[key := r.value] else entries)
  }

  lemma {:induction false} SoundHit(g: Grammar, entries: map<CacheKey, Statement>, s: Text, mode: Mode, signature: nat)
    ensures var (r, entries') := CachedParse(g, entries, s, mode, signature);
      IsSoundTable(g, mode, entries) ==> r == ParseSpec(g, s, mode) && IsSoundTable(g, mode, entries')
  {
  }

  datatype CacheOp = Lookup(s: Text, signature: nat) | Drop(gone: set<CacheKey>)

  /** The answers of a sequence of lookups in one mode, with evictions between. */
  ghost function CachedRun(g: Grammar, mode: Mode, entries: map<CacheKey, Statement>, ops: seq<CacheOp>)
    : seq<Outcome>
    decreases ops
  {
    if ops == [] then []
    else
      match ops[0]
      case Drop(gone) => CachedRun(g, mode, entries - gone, ops[1..])
      case Lookup(s, signature) =>
        var (r, entries') := CachedParse(g, entries, s, mode, signature);
        [r] + CachedRun(g, mode, entries', ops[1..])
  }

  /** The answers of the parser alone. */
  ghost function PlainRun(g: Grammar, mode: Mode, ops: seq<CacheOp>): seq<Outcome>
    decreases ops
  {
    if ops == [] then []
    else if ops[0].Drop? then PlainRun(g, mode, ops[1..])
    else [ParseSpec(g, ops[0].s, mode)] + PlainRun(g, mode, ops[1..])
  }

  /** In one mode the cache is invisible, whatever is evicted and however
      parameter signatures collide. */
  lemma {:induction false} CacheIsTransparent(g: Grammar, mode: Mode, entries: map<CacheKey, Statement>,
                                              ops: seq<CacheOp>)
    requires IsSoundTable(g, mode, entries)
    ensures CachedRun(g, mode, entries, ops) == PlainRun(g, mode, ops)
    decreases ops
  {
    if ops != [] {
      match ops[0]
      case Drop(gone) => CacheIsTransparent(g, mode, entries - gone, ops[1..]);
      case Lookup(s, signature) =>
        SoundHit(g, entries, s, mode, signature);
        CacheIsTransparent(g, mode, CachedParse(g, entries, s, mode, signature).1, ops[1..]);
    }
  }

  // ── One cache for three modes ─────────────────────────────────────────

  /** One of the prefix parsers takes the text. */
  predicate IsClaimed(g: Grammar, s: Text) {
    !TryParseCall(g, s).NotMine? || !TryParseDdl(g, s).NotMine? || !TryParseAdmin(g, s).NotMine?
  }

  lemma {:induction false} UnclaimedIsText(g: Grammar, s: Text, mode: Mode)
    requires !IsClaimed(g, s)
    ensures ParseSpec(g, s, mode) == ParseText(g, s, mode)
  {
  }

  lemma {:induction false} ClaimedInEveryMode(g: Grammar, s: Text, m: Mode, n: Mode)
    requires IsClaimed(g, s)
    ensures ParseSpec(g, s, m) == ParseSpec(g, s, n)
  {
  }

  /** Strict mode differs from plain GQL exactly on the texts that its scan rejects, no
      prefix parser claims, and the core parser accepts. */
  lemma {:induction false} StrictDiffersExactly(g: Grammar, s: Text)
    ensures ParseSpec(g, s, StrictGql) != ParseSpec(g, s, Gql) <==>
            !IsClaimed(g, s) && Strict.Rejects(s) && g.gql(s).Some?
  {
    if IsClaimed(g, s) {
      ClaimedInEveryMode(g, s, StrictGql, Gql);
    }
  }

  /** Compatibility mode can differ from it only on unclaimed texts with Cypher
      constructs, and there it does exactly if the core parser tells the text from its
      preprocessed form. */
  lemma {:induction false} CompatDiffersExactly(g: Grammar, s: Text)
    ensures ParseSpec(g, s, CypherCompat) != ParseSpec(g, s, Gql) <==>
      && !IsClaimed(g, s) && Preprocessor.HasCypherConstructs(s)
      && var r := Preprocessor.CypherToGql(s);
         if r.Err? then g.gql(s).Some? else g.gql(r.text) != g.gql(s)
  {
    if IsClaimed(g, s) {
      ClaimedInEveryMode(g, s, CypherCompat, Gql);
    } else {
      UnclaimedIsText(g, s, CypherCompat);
      UnclaimedIsText(g, s, Gql);
    }
  }

  /** A text that no mode treats in a way of its own. */
  ghost predicate IsModeFree(g: Grammar, s: Text) {
    IsClaimed(g, s) || (!Preprocessor.HasCypherConstructs(s) && !Strict.Rejects(s))
  }

  lemma {:induction false} ModeFreeTextsParseAlike(g: Grammar, s: Text, m: Mode, n: Mode)
    requires IsModeFree(g, s)
    ensures ParseSpec(g, s, m) == ParseSpec(g, s, n)
  {
    StrictDiffersExactly(g, s);
    CompatDiffersExactly(g, s);
  }

  datatype MixedOp = LookupIn(mode: Mode, s: Text, signature: nat) | DropAny(gone: set<CacheKey>)

  /** The answers of a sequence of lookups in any modes, with evictions between. */
  ghost function MixedRun(g: Grammar, entries: map<CacheKey, Statement>, ops: seq<MixedOp>): seq<Outcome>
    decreases ops
  {
    if ops == [] then []
    else
      match ops[0]
      case DropAny(gone) => MixedRun(g, entries - gone, ops[1..])
      case LookupIn(mode, s, signature) =>
        var (r, entries') := CachedParse(g, entries, s, mode, signature);
        [r] + MixedRun(g, entries', ops[1..])
  }

  ghost function PlainMixedRun(g: Grammar, ops: seq<MixedOp>): seq<Outcome>
    decreases ops
  {
    if ops == [] then []
    else if ops[0].DropAny? then PlainMixedRun(g, ops[1..])
    else [ParseSpec(g, ops[0].s, ops[0].mode)] + PlainMixedRun(g, ops[1..])
  }

  ghost predicate AreModeFree(g: Grammar, ops: seq<MixedOp>) {
    forall i :: 0 <= i < |ops| && ops[i].LookupIn? ==> IsModeFree(g, ops[i].s)
  }

  lemma {:induction false} MixedLookup(g: Grammar, entries: map<CacheKey, Statement>, s: Text, mode: Mode,
                                       signature: nat)
    requires IsSoundTable(g, Gql, entries) && IsModeFree(g, s)
    ensures var (r, entries') := CachedParse(g, entries, s, mode, signature);
      r == ParseSpec(g, s, mode) && IsSoundTable(g, Gql, entries')
  {
    ModeFreeTextsParseAlike(g, s, mode, Gql);
  }

  /** Connections in different modes may share the cache for as long as every text is
      free of modes: each gets the answer of its own mode, whatever is evicted. */
  lemma {:induction false} CacheIsTransparentAcrossModes(g: Grammar, entries: map<CacheKey, Statement>,
                                                         ops: seq<MixedOp>)
    requires IsSoundTable(g, Gql, entries) && AreModeFree(g, ops)
    ensures MixedRun(g, entries, ops) == PlainMixedRun(g, ops)
    decreases ops
  {
    if ops != [] {
      match ops[0]
      case DropAny(gone) => CacheIsTransparentAcrossModes(g, entries - gone, ops[1..]);
      case LookupIn(mode, s, signature) =>
        MixedLookup(g, entries, s, mode, signature);
        CacheIsTransparentAcrossModes(g, CachedParse(g, entries, s, mode, signature).1, ops[1..]);
    }
  }

  /** And not for longer: a text that plain GQL has put in the cache is then accepted in
      strict mode if and only if strict mode accepts it, which for an unclaimed text is
      if and only if its scan does not reject it. */
  lemma {:induction false} StrictModeIsBypassedExactly(g: Grammar, s: Text, signature: nat)
    requires !IsClaimed(g, s) && g.gql(s).Some?
    ensures var after := CachedParse(g, map[], s, Gql, signature).1;
      CachedParse(g, after, s, StrictGql, signature).0 == ParseSpec(g, s, StrictGql) <==> !Strict.Rejects(s)
  {
    UnclaimedIsText(g, s, Gql);
    UnclaimedIsText(g, s, StrictGql);
  }

  /** A text that begins with no prefix of the three parsers. */
  lemma {:induction false} UnclaimedByFirstUnit(g: Grammar, s: Text)
    requires Upper(Trimmed(s)) == [] || Upper(Trimmed(s))[0] !in {'C', 'D', 'A', 'S', 'G', 'R'}
    ensures !IsClaimed(g, s)
  {
    var u := Upper(Trimmed(s));
    if IsCall(u) { CallIsShaped(u); }
    if IsDdlGrammar(u) || IsDdlShow(u) || IsDdlStub(u) { DdlIsShaped(u); }
    if IsAdmin(u) { AdminIsShaped(u); }
  }

  lemma {:induction false} NothingTrimmed(s: Text)
    requires s != [] && BlankFrom(s, 0) == 0 && BlankTo(s, |s|) == 0 && s[|s| - 1] != ';'
    ensures Trimmed(s) == s
  {
    assert TrimForward(s, 0) == 0 && TrimBack(s, |s|) == |s|;
  }

  lemma {:induction false} SpeltStarts(t: Text, j: nat)
    requires j + 13 <= |t| && t[j] == 'S' && t[j + 1] == 'T' && t[j + 2] == 'A' && t[j + 3] == 'R' && t[j + 4] == 'T'
    requires t[j + 5] == 'S' && t[j + 6] == ' '
    requires t[j + 7] == 'W' && t[j + 8] == 'I' && t[j + 9] == 'T' && t[j + 10] == 'H' && t[j + 11] == ' '
    requires j > 0 && t[j - 1] == ' '
    ensures Strict.IsNear(t, Strict.STARTS, j, j + 7) && WordAt(t, Clauses.WITH, j + 7)
  {
  }

  lemma {:induction false} OperatorIsRejected(t: Text, j: nat)
    requires OperatorAt(Lexer.UpperMask(t), Strict.STARTS, Clauses.WITH, j)
    ensures Strict.Rejects(t)
  {
    assert Strict.HasOperator(Lexer.UpperMask(t), Strict.STARTS);
  }

  lemma {:induction false} StartsIsRejected(t: Text, j: nat, q: nat)
    requires forall k :: 0 <= k < |t| ==> t[k] == ' ' || IsUpperLetter(t[k])
    requires Strict.IsNear(t, Strict.STARTS, j, q) && WordAt(t, Clauses.WITH, q)
    ensures Strict.Rejects(t)
  {
    Strict.NearIsOperator(t, Strict.STARTS, j, q);
    Strict.PlainText(t);
    OperatorIsRejected(t, j);
  }

  /** The scan of strict mode rejects `STARTS WITH`, the core parser knows it, and a
      cached parse lets it through. */
  lemma {:induction false} StrictModeIsBypassed(g: Grammar, s: Text, signature: nat)
    requires s != [] && s[0] == 'M' && BlankTo(s, |s|) == 0 && s[|s| - 1] != ';'
    requires Strict.Rejects(s) && g.gql(s).Some?
    ensures var after := CachedParse(g, map[], s, Gql, signature).1;
      && ParseSpec(g, s, StrictGql) == None
      && CachedParse(g, after, s, StrictGql, signature).0 == g.gql(s)
  {
    NothingTrimmed(s);
    UnclaimedByFirstUnit(g, s);
    UnclaimedIsText(g, s, Gql);
    UnclaimedIsText(g, s, StrictGql);
  }

  /** A grammar that knows no prefix statement, and a core parser that accepts everything. */
  const LENIENT := Grammar(_ => None, _ => None, _ => None, _ => 0, _ => Some(Query(0)))

  lemma {:induction false} StrictModeIsBypassedOnce()
    ensures var s := "MATCH N WHERE N STARTS WITH A";
      var after := CachedParse(LENIENT, map[], s, Gql, 0).1;
      CachedParse(LENIENT, after, s, StrictGql, 0).0 == Some(Query(0)) && ParseSpec(LENIENT, s, StrictGql) == None
  {
    var s := "MATCH N WHERE N STARTS WITH A";
    SpeltStarts(s, 16);
    StartsIsRejected(s, 16, 23);
    StrictModeIsBypassed(LENIENT, s, 0);
  }

  // ── A projection the fast path lets by ────────────────────────────────

  predicate IsPlainUnit(c: char) {
    c == ' ' || c == 'A' || c == 'H' || c == 'I' || c == 'T' || c == 'W'
  }

  lemma {:induction false} PlainMask(t: Text)
    requires forall i :: 0 <= i < |t| ==> IsPlainUnit(t[i])
    ensures Lexer.Mask(t) == t && Lexer.UpperMask(t) == t
  {
    Lexer.QuoteFreeRun(t, 0, |t|);
    Removal.NoQuotesNoMask(t);
  }

  lemma {:induction false} NoStar(u: Text)
    requires forall i :: 0 <= i < |u| ==> u[i] != '*'
    ensures forall p :: 0 <= p < |u| ==> !Clauses.HasStarAt(u, p)
  {
  }

  lemma {:induction false} PlainHasNoConstructs(t: Text)
    requires forall i :: 0 <= i < |t| ==> IsPlainUnit(t[i])
    ensures Lexer.UpperMask(t) == t && !Preprocessor.HasCypherConstructs(t)
  {
    PlainMask(t);
    NoStar(t);
    Removal.AlienWord(t, "OPTIONAL", 0);
    Removal.AlienWord(t, "REMOVE", 0);
  }

  lemma {:induction false} WithIsFirst(t: Text)
    requires |t| > 4 && t[0] == 'W' && t[1] == 'I' && t[2] == 'T' && t[3] == 'H' && t[4] == ' '
    ensures FirstWord(t, "WITH") == Some(0) && Clauses.IsStandaloneWith(t, 0)
  {
    assert OccursAt(t, "WITH", 0);
    FirstWordIs(t, 0, |t|, "WITH", 0);
  }

  lemma {:induction false} ProjectionIsRefused(t: Text)
    requires (forall i :: 0 <= i < |t| ==> IsPlainUnit(t[i]))
    requires |t| > 4 && t[0] == 'W' && t[1] == 'I' && t[2] == 'T' && t[3] == 'H' && t[4] == ' '
    ensures !Preprocessor.HasCypherConstructs(t)
    ensures Preprocessor.CypherToGql(t) == Preprocessor.Err(Preprocessor.WithProjection)
  {
    PlainHasNoConstructs(t);
    WithIsFirst(t);
    Preprocessor.FastPathRefinesSlowPath(t);
  }

  /** `WITH A` has no Cypher construct and projects: the preprocessor refuses it, and
      the fast path hands it to a parser that may accept it. */
  lemma {:induction false} ProjectionGoesUnnoticed()
    ensures var s := "WITH A";
      && !Preprocessor.HasCypherConstructs(s)
      && Preprocessor.CypherToGql(s) == Preprocessor.Err(Preprocessor.WithProjection)
      && ParseText(LENIENT, s, CypherCompat) == Some(Query(0))
  {
    ProjectionIsRefused("WITH A");
  }
}
