/** The two adapters of the vector index port: Qdrant clauses, and SQL with numbered placeholders. */
module VectorAdapters {
  import opened Common
  import Chunker

  // ----- rows, filters and their normalisation -----

  // The payload columns a filter can look at, and the rest; an absent value is never equal to anything.
  datatype Row = Row(
    record: Option<nat>, org: string, scopeType: Option<string>, scopeId: Option<string>, projectKey: Option<string>,
    rest: seq<Param>)

  datatype Field = OrganizationId | ScopeType | ScopeId | ProjectKey

  function FieldOf(row: Row, f: Field): Option<string> {
    match f
    case OrganizationId => Some(row.org)
    case ScopeType => row.scopeType
    case ScopeId => row.scopeId
    case ProjectKey => row.projectKey
  }

  datatype Scope = Scope(scopeType: string, scopeId: string)

  datatype VectorFilter = VectorFilter(organizationId: string, scopes: seq<Scope>, projectKey: Option<string>)

  datatype AdapterError =
    | EmptyVector | LimitNotPositive | BlankOrganization | NoScopes | BadScope | BlankProjectKey | BadIds | Rejected

  predicate IsSpace(c: char) {
    c as int < 0x1_0000 && Chunker.IsSpace(c as int)
  }

  function TrimLeft(s: string): string {
    if s != [] && IsSpace(s[0]) then TrimLeft(s[1..]) else s
  }

  function TrimRight(s: string): string {
    if s != [] && IsSpace(s[|s| - 1]) then TrimRight(s[..|s| - 1]) else s
  }

  function Trim(s: string): string {
    TrimRight(TrimLeft(s))
  }

  predicate Blank(s: string) {
    Trim(s) == []
  }

  predicate AllSpace(s: string) {
    forall c :: c in s ==> IsSpace(c)
  }

  lemma {:induction false} TrimLeftStrips(s: string) returns (i: nat)
    ensures i <= |s| && TrimLeft(s) == s[i..] && AllSpace(s[..i]) && (i < |s| ==> !IsSpace(s[i]))
  {
    if s != [] && IsSpace(s[0]) {
      var k := TrimLeftStrips(s[1..]);
      i := k + 1;
      assert s[..i] == [s[0]] + s[1..][..k];
    } else {
      i := 0;
    }
  }

  lemma {:induction false} TrimRightStrips(s: string) returns (j: nat)
    ensures j <= |s| && TrimRight(s) == s[..j] && AllSpace(s[j..]) && (0 < j ==> !IsSpace(s[j - 1]))
  {
    if s != [] && IsSpace(s[|s| - 1]) {
      j := TrimRightStrips(s[..|s| - 1]);
      assert s[j..] == s[..|s| - 1][j..] + [s[|s| - 1]];
    } else {
      j := |s|;
    }
  }

  /** Trimming takes the spaces at both ends and nothing else; what is left begins and ends with something else. */
  lemma TrimStrips(s: string) returns (i: nat, j: nat)
    ensures i <= j <= |s| && Trim(s) == s[i..j] && AllSpace(s[..i]) && AllSpace(s[j..])
    ensures i < j ==> !IsSpace(s[i]) && !IsSpace(s[j - 1])
    ensures Blank(s) <==> AllSpace(s)
  {
    hide IsSpace;
    i := TrimLeftStrips(s);
    var k := TrimRightStrips(TrimLeft(s));
    hide TrimLeft, TrimRight;
    j := i + k;
    assert s[i..j] == s[i..][..k] && s[j..] == s[i..][k..];
    assert i < j ==> s[i] == s[i..j][0] && s[j - 1] == s[i..][k - 1];
    assert s == s[..i] + s[i..j] + s[j..];
    if i < j { assert s[i] in s; }
  }

  // normalizeOptionalVectorOrganizationId: the empty string means no organization.
  function NormalOrg(org: string): Result<Option<string>, AdapterError> {
    if org == "" then Success(None)
    else if Blank(org) then Failure(BlankOrganization)
    else Success(Some(Trim(org)))
  }

  predicate GoodScope(s: Scope) {
    !Blank(s.scopeId) && Trim(s.scopeType) in {"user", "project"}
  }

  function NormalScopes(scopes: seq<Scope>): Result<seq<Scope>, AdapterError> {
    if scopes == [] then Failure(NoScopes)
    else if exists s :: s in scopes && !GoodScope(s) then Failure(BadScope)
    else Success(seq(|scopes|, i requires 0 <= i < |scopes| => Scope(Trim(scopes[i].scopeType), Trim(scopes[i].scopeId))))
  }

  function NormalKey(key: Option<string>): Result<Option<string>, AdapterError> {
    if key.Some? && Blank(key.value) then Failure(BlankProjectKey)
    else Success(if key.Some? then Some(Trim(key.value)) else None)
  }

  function Normal(f: VectorFilter): Result<VectorFilter, AdapterError> {
    var org := NormalOrg(f.organizationId);
    if org.Failure? then Failure(org.error)
    else
      var scopes := NormalScopes(f.scopes);
      if scopes.Failure? then Failure(scopes.error)
      else
        var key := NormalKey(f.projectKey);
        if key.Failure? then Failure(key.error)
        else Success(VectorFilter(if org.value.Some? then org.value.value else "", scopes.value, key.value))
  }

  // Why a filter is refused; the first reason counts.
  function Refusal(f: VectorFilter): Option<AdapterError> {
    if f.organizationId != "" && Blank(f.organizationId) then Some(BlankOrganization)
    else if f.scopes == [] then Some(NoScopes)
    else if exists s :: s in f.scopes && (Blank(s.scopeId) || Trim(s.scopeType) !in {"user", "project"}) then Some(BadScope)
    else if f.projectKey.Some? && Blank(f.projectKey.value) then Some(BlankProjectKey)
    else None
  }

  /**
    What a filter asks for, spaces around its values aside: its organization, unless that is empty, and for every scope
    the scope's type and, of a project scope with a project key, that key, and otherwise the scope's id.
  */
  predicate Asks(f: VectorFilter, row: Row) {
    && (f.organizationId != "" ==> row.org == Trim(f.organizationId))
    && forall s :: s in f.scopes ==>
         && row.scopeType == Some(Trim(s.scopeType))
         && if Trim(s.scopeType) == "project" && f.projectKey.Some?
            then row.projectKey == Some(Trim(f.projectKey.value)) else row.scopeId == Some(Trim(s.scopeId))
  }

  // Normalising a filter changes neither what it asks for nor whether it is refused.
  lemma NormalAsks(f: VectorFilter)
    ensures Normal(f).Failure? <==> Refusal(f).Some?
    ensures Normal(f).Failure? ==> Refusal(f) == Some(Normal(f).error)
    ensures Normal(f).Success? ==> forall row :: Wanted(Normal(f).value, row) <==> Asks(f, row)
  {
    hide Trim;
    if Normal(f).Success? {
      var g := Normal(f).value;
      assert forall i :: 0 <= i < |f.scopes| ==> g.scopes[i] == Scope(Trim(f.scopes[i].scopeType), Trim(f.scopes[i].scopeId));
      forall row ensures Wanted(g, row) <==> Asks(f, row) {
        ScopesAsk(f, g, row);
      }
    }
  }

  lemma ScopesAsk(f: VectorFilter, g: VectorFilter, row: Row)
    requires |g.scopes| == |f.scopes|
    requires forall i :: 0 <= i < |f.scopes| ==> g.scopes[i] == Scope(Trim(f.scopes[i].scopeType), Trim(f.scopes[i].scopeId))
    requires g.projectKey == if f.projectKey.Some? then Some(Trim(f.projectKey.value)) else None
    requires f.organizationId == "" ==> g.organizationId == ""
    requires f.organizationId != "" ==> g.organizationId == Trim(f.organizationId) != ""
    ensures Wanted(g, row) <==> Asks(f, row)
  {
    hide Trim;
    if Wanted(g, row) {
      forall s | s in f.scopes
        ensures row.scopeType == Some(Trim(s.scopeType))
        ensures if Trim(s.scopeType) == "project" && f.projectKey.Some?
                then row.projectKey == Some(Trim(f.projectKey.value)) else row.scopeId == Some(Trim(s.scopeId))
      {
        var i :| 0 <= i < |f.scopes| && f.scopes[i] == s;
        assert g.scopes[i] in g.scopes;
      }
    }
    if Asks(f, row) {
      forall s | s in g.scopes
        ensures row.scopeType == Some(s.scopeType)
        ensures if s.scopeType == "project" && g.projectKey.Some?
                then row.projectKey == g.projectKey else row.scopeId == Some(s.scopeId)
      {
        var i :| 0 <= i < |g.scopes| && g.scopes[i] == s;
        assert f.scopes[i] in f.scopes;
      }
    }
  }

  // What a normalised filter asks for: its organization, if any, and every one of its scopes.
  predicate Wanted(f: VectorFilter, row: Row) {
    && (f.organizationId != "" ==> row.org == f.organizationId)
    && forall s :: s in f.scopes ==>
         && row.scopeType == Some(s.scopeType)
         && if s.scopeType == "project" && f.projectKey.Some?
            then row.projectKey == f.projectKey else row.scopeId == Some(s.scopeId)
  }

  // ----- Qdrant: must clauses -----

  datatype Must = Match(field: Field, value: string)

  predicate QdrantSelects(must: seq<Must>, row: Row) {
    forall m :: m in must ==> FieldOf(row, m.field) == Some(m.value)
  }

  // The two clauses of a scope.
  function ScopeMust(f: VectorFilter, s: Scope): seq<Must> {
    [Match(ScopeType, s.scopeType),
     if s.scopeType == "project" && f.projectKey.Some? then Match(ProjectKey, f.projectKey.value) else Match(ScopeId, s.scopeId)]
  }

  method BuildQdrantMust(filter: VectorFilter) returns (r: Result<seq<Must>, AdapterError>)
    ensures Refusal(filter).Some? ==> r == Failure(Refusal(filter).value)
    ensures Refusal(filter).None? ==> r.Success? && forall row :: QdrantSelects(r.value, row) <==> Asks(filter, row)
  {
    NormalAsks(filter);
    hide Refusal, Asks;
    var normal := Normal(filter);
    if normal.Failure? { return Failure(normal.error); }
    var f := normal.value;
    hide Normal;
    var must: seq<Must> := [];
    if f.organizationId != "" { must := must + [Match(OrganizationId, f.organizationId)]; }
    var i := 0;
    while i < |f.scopes|
      invariant 0 <= i <= |f.scopes|
      invariant forall row :: QdrantSelects(must, row) <==> Wanted(f.(scopes := f.scopes[..i]), row)
    {
      OneMoreScope(f, i, must);
      must := must + ScopeMust(f, f.scopes[i]);
      i := i + 1;
    }
    assert f.scopes[..i] == f.scopes && f.(scopes := f.scopes) == f;
    r := Success(must);
  }

  lemma OneMoreScope(f: VectorFilter, i: nat, must: seq<Must>)
    requires i < |f.scopes|
    requires forall row :: QdrantSelects(must, row) <==> Wanted(f.(scopes := f.scopes[..i]), row)
    ensures forall row :: QdrantSelects(must + ScopeMust(f, f.scopes[i]), row) <==> Wanted(f.(scopes := f.scopes[..i + 1]), row)
  {
    var more := ScopeMust(f, f.scopes[i]);
    assert f.scopes[..i + 1] == f.scopes[..i] + [f.scopes[i]];
    forall row
      ensures QdrantSelects(must + more, row) <==> Wanted(f.(scopes := f.scopes[..i + 1]), row)
    {
      SelectsBoth(must, more, row);
      WantsBoth(f, i, row);
      assert more[0] in more && more[1] in more;
    }
  }

  lemma SelectsBoth(must: seq<Must>, more: seq<Must>, row: Row)
    ensures QdrantSelects(must + more, row) <==> QdrantSelects(must, row) && QdrantSelects(more, row)
  {
    forall m ensures m in must + more <==> m in must || m in more {
    }
  }

  lemma WantsBoth(f: VectorFilter, i: nat, row: Row)
    requires i < |f.scopes|
    ensures Wanted(f.(scopes := f.scopes[..i + 1]), row)
       <==> Wanted(f.(scopes := f.scopes[..i]), row) && Wanted(f.(organizationId := "", scopes := [f.scopes[i]]), row)
  {
    assert f.scopes[..i + 1] == f.scopes[..i] + [f.scopes[i]];
  }

  // ----- pgvector: WHERE with numbered placeholders -----

  datatype Param = Text(s: string) | Number(n: nat) | Null

  datatype Clause = Equals(field: Field, placeholder: nat)

  datatype Select = Select(clauses: seq<Clause>, params: seq<Param>, vector: nat, limit: nat)

  // Placeholders count from 1 and are all bound.
  predicate Bound(q: Select) {
    && 1 <= q.vector <= |q.params| && 1 <= q.limit <= |q.params|
    && forall c :: c in q.clauses ==> 1 <= c.placeholder <= |q.params|
  }

  predicate SqlSelects(clauses: seq<Clause>, params: seq<Param>, row: Row)
    requires forall c :: c in clauses ==> 1 <= c.placeholder <= |params|
  {
    forall c :: c in clauses ==>
      params[c.placeholder - 1].Text? && FieldOf(row, c.field) == Some(params[c.placeholder - 1].s)
  }

  // Clause k compares the k-th wanted field with its own placeholder, the one after the vector's.
  predicate Numbered(clauses: seq<Clause>, params: seq<Param>, must: seq<Must>) {
    && |clauses| == |must| && |params| == |must| + 1
    && forall k :: 0 <= k < |must| ==> clauses[k] == Equals(must[k].field, k + 2) && params[k + 1] == Text(must[k].value)
  }

  lemma NumberedSelects(clauses: seq<Clause>, params: seq<Param>, more: seq<Param>, must: seq<Must>)
    requires Numbered(clauses, params, must)
    ensures forall c :: c in clauses ==> 1 <= c.placeholder <= |params + more|
    ensures forall row :: SqlSelects(clauses, params + more, row) <==> QdrantSelects(must, row)
  {
    forall row
      ensures (forall c :: c in clauses ==> 1 <= c.placeholder <= |params + more|)
      ensures SqlSelects(clauses, params + more, row) <==> QdrantSelects(must, row)
    {
      forall c | c in clauses ensures 1 <= c.placeholder <= |params + more| {
        var k :| 0 <= k < |clauses| && clauses[k] == c;
      }
      if SqlSelects(clauses, params + more, row) {
        forall m | m in must ensures FieldOf(row, m.field) == Some(m.value) {
          var k :| 0 <= k < |must| && must[k] == m;
          assert clauses[k] in clauses;
        }
      }
      if QdrantSelects(must, row) {
        forall c | c in clauses
          ensures (params + more)[c.placeholder - 1].Text? && FieldOf(row, c.field) == Some((params + more)[c.placeholder - 1].s)
        {
          var k :| 0 <= k < |clauses| && clauses[k] == c;
          assert must[k] in must;
        }
      }
    }
  }

  /**
    The WHERE clause, LIMIT and parameters of pgvector's query. It selects the rows the filter asks for, the vector is $1
    and the limit the last placeholder.
  */
  method BuildPgVectorSelect(vector: string, limit: nat, filter: VectorFilter) returns (r: Result<Select, AdapterError>)
    ensures Refusal(filter).Some? ==> r == Failure(Refusal(filter).value)
    ensures Refusal(filter).None? ==>
      && r.Success? && Bound(r.value)
      && r.value.vector == 1 && r.value.params[0] == Text(vector)
      && r.value.limit == |r.value.params| && r.value.params[r.value.limit - 1] == Number(limit)
      && forall row :: SqlSelects(r.value.clauses, r.value.params, row) <==> Asks(filter, row)
  {
    NormalAsks(filter);
    hide Refusal, Asks;
    var normal := Normal(filter);
    if normal.Failure? { return Failure(normal.error); }
    var f := normal.value;
    hide Normal, Wanted, QdrantSelects, SqlSelects;
    var params, whereClauses: seq<Clause> := [Text(vector)], [];
    ghost var must: seq<Must> := [];
    if f.organizationId != "" {
      params := params + [Text(f.organizationId)];
      whereClauses := whereClauses + [Equals(OrganizationId, |params|)];
      must := must + [Match(OrganizationId, f.organizationId)];
    }
    OrgSelects(f, must);
    var i := 0;
    while i < |f.scopes|
      invariant 0 <= i <= |f.scopes|
      invariant Numbered(whereClauses, params, must) && params[0] == Text(vector)
      invariant forall row :: QdrantSelects(must, row) <==> Wanted(f.(scopes := f.scopes[..i]), row)
    {
      var scope := f.scopes[i];
      OneMoreScope(f, i, must);
      params := params + [Text(scope.scopeType)];
      whereClauses := whereClauses + [Equals(ScopeType, |params|)];
      if scope.scopeType == "project" && f.projectKey.Some? {
        params := params + [Text(f.projectKey.value)];
        whereClauses := whereClauses + [Equals(ProjectKey, |params|)];
      } else {
        params := params + [Text(scope.scopeId)];
        whereClauses := whereClauses + [Equals(ScopeId, |params|)];
      }
      must := must + ScopeMust(f, scope);
      i := i + 1;
    }
    assert f.scopes[..i] == f.scopes && f.(scopes := f.scopes) == f;
    NumberedSelects(whereClauses, params, [Number(limit)], must);
    params := params + [Number(limit)];
    r := Success(Select(whereClauses, params, 1, |params|));
  }

  lemma OrgSelects(f: VectorFilter, must: seq<Must>)
    requires must == if f.organizationId != "" then [Match(OrganizationId, f.organizationId)] else []
    ensures forall row :: QdrantSelects(must, row) <==> Wanted(f.(scopes := f.scopes[..0]), row)
  {
    forall row ensures QdrantSelects(must, row) <==> Wanted(f.(scopes := f.scopes[..0]), row) {
      if must != [] { assert must[0] in must; }
    }
  }

  // ----- upsert -----

  datatype VectorPoint = VectorPoint(id: string, row: Row)

  type Rows = map<string, Row>

  // What either backend holds after an upsert: point by point, the last one of an id winning.
  function UpsertAll(rows: Rows, points: seq<VectorPoint>): Rows {
    if points == [] then rows
    else
      var last := points[|points| - 1];
      UpsertAll(rows, points[..|points| - 1])[last.id := last.row]
  }

  lemma {:induction false} UpsertInParts(rows: Rows, a: seq<VectorPoint>, b: seq<VectorPoint>)
    ensures UpsertAll(rows, a + b) == UpsertAll(UpsertAll(rows, a), b)
  {
    if b == [] {
      assert a + b == a;
    } else {
      UpsertInParts(rows, a, b[..|b| - 1]);
      assert (a + b)[..|a + b| - 1] == a + b[..|b| - 1];
    }
  }

  /** After an upsert an id that was in it holds its last row ... */
  lemma {:induction false} UpsertedRow(rows: Rows, points: seq<VectorPoint>, k: nat)
    requires k < |points| && forall m :: k < m < |points| ==> points[m].id != points[k].id
    ensures points[k].id in UpsertAll(rows, points) && UpsertAll(rows, points)[points[k].id] == points[k].row
    decreases |points|
  {
    if k + 1 < |points| {
      var init := points[..|points| - 1];
      assert init[k] == points[k] && points[|init|].id != points[k].id;
      UpsertedRow(rows, init, k);
    }
  }

  /** ... and any other id what it held. */
  lemma {:induction false} KeptRow(rows: Rows, points: seq<VectorPoint>, id: string)
    requires forall p :: p in points ==> p.id != id
    ensures (id in UpsertAll(rows, points) <==> id in rows) && (id in rows ==> UpsertAll(rows, points)[id] == rows[id])
  {
    if points != [] {
      assert points[|points| - 1] in points;
      KeptRow(rows, points[..|points| - 1], id);
    }
  }

  const UPSERT_BATCH_ROWS := 4000

  const PARAMS_PER_ROW := 14

  const MAX_BIND_PARAMS := 65535

  function OptionalText(s: Option<string>): Param {
    if s.Some? then Text(s.value) else Null
  }

  // The parameters of one row; rest holds the eight columns no filter looks at.
  function RowParams(p: VectorPoint): seq<Param> {
    [Text(p.id), if p.row.record.Some? then Number(p.row.record.value) else Null, Text(p.row.org),
     OptionalText(p.row.scopeType), OptionalText(p.row.scopeId), OptionalText(p.row.projectKey)] + p.row.rest
  }

  // The point a value list of the INSERT describes.
  function FromParams(t: seq<Param>): VectorPoint
    requires |t| == PARAMS_PER_ROW
  {
    VectorPoint(TextOf(t[0]), Row(if t[1].Number? then Some(t[1].n) else None, TextOf(t[2]), OptionOf(t[3]), OptionOf(t[4]),
                                  OptionOf(t[5]), t[6..]))
  }

  function TextOf(p: Param): string {
    if p.Text? then p.s else ""
  }

  function OptionOf(p: Param): Option<string> {
    if p.Text? then Some(p.s) else None
  }

  lemma ParamsRoundTrip(p: VectorPoint)
    requires |p.row.rest| == 8
    ensures |RowParams(p)| == PARAMS_PER_ROW && FromParams(RowParams(p)) == p
  {
    assert RowParams(p)[6..] == p.row.rest;
  }

  // The rows an INSERT with these value lists and parameters inserts.
  function InsertedRows(values: seq<seq<nat>>, params: seq<Param>): seq<VectorPoint>
    requires forall k :: 0 <= k < |values| ==>
      |values[k]| == PARAMS_PER_ROW && AllBound(values[k], params)
  {
    seq(|values|, k requires 0 <= k < |values| => FromParams(Substituted(values[k], params)))
  }

  // The placeholders $base+1 .. $base+14 of a row.
  function Placeholders(base: nat): seq<nat> {
    seq(PARAMS_PER_ROW, i requires 0 <= i < PARAMS_PER_ROW => base + i + 1)
  }

  predicate Wide(points: seq<VectorPoint>) {
    forall p :: p in points ==> |p.row.rest| == 8
  }

  predicate AllBound(values: seq<nat>, params: seq<Param>) {
    forall i :: 0 <= i < |values| ==> 1 <= values[i] <= |params|
  }

  // What a value list says when its placeholders are replaced by the parameters.
  function Substituted(values: seq<nat>, params: seq<Param>): seq<Param>
    requires AllBound(values, params)
  {
    seq(|values|, i requires 0 <= i < |values| => params[values[i] - 1])
  }

  /** One INSERT statement: within the bind-parameter cap, and inserting exactly the rows of the batch. */
  method BuildInsert(batch: seq<VectorPoint>) returns (values: seq<seq<nat>>, params: seq<Param>)
    requires |batch| <= UPSERT_BATCH_ROWS && Wide(batch)
    ensures |values| == |batch| && |params| == PARAMS_PER_ROW * |batch| <= MAX_BIND_PARAMS
    ensures forall k :: 0 <= k < |values| ==>
      |values[k]| == PARAMS_PER_ROW && AllBound(values[k], params)
    ensures InsertedRows(values, params) == batch
  {
    values, params := [], [];
    var i := 0;
    while i < |batch|
      invariant 0 <= i <= |batch| && |values| == i && |params| == PARAMS_PER_ROW * i
      invariant forall k :: 0 <= k < i ==>
        AllBound(values[k], params) && Substituted(values[k], params) == RowParams(batch[k])
    {
      var base := |params|;
      assert batch[i] in batch;
      ghost var before := params;
      values := values + [Placeholders(base)];
      params := params + RowParams(batch[i]);
      forall k | 0 <= k < i
        ensures AllBound(values[k], params) && Substituted(values[k], params) == RowParams(batch[k])
      {
        MoreParams(values[k], before, RowParams(batch[i]));
      }
      OwnParams(before, RowParams(batch[i]));
      i := i + 1;
    }
    forall k | 0 <= k < |values| ensures |values[k]| == PARAMS_PER_ROW && FromParams(Substituted(values[k], params)) == batch[k] {
      assert batch[k] in batch;
      ParamsRoundTrip(batch[k]);
    }
  }

  lemma MoreParams(values: seq<nat>, params: seq<Param>, more: seq<Param>)
    requires AllBound(values, params)
    ensures AllBound(values, params + more)
    ensures Substituted(values, params + more) == Substituted(values, params)
  {
  }

  lemma OwnParams(params: seq<Param>, more: seq<Param>)
    requires |more| == PARAMS_PER_ROW
    ensures AllBound(Placeholders(|params|), params + more)
    ensures Substituted(Placeholders(|params|), params + more) == more
  {
  }

  predicate Repeats(points: seq<VectorPoint>) {
    exists i, k :: 0 <= i < k < |points| && points[i].id == points[k].id
  }

  /** No id comes twice within one batch of the batched upsert. */
  predicate BatchesDistinct(points: seq<VectorPoint>) {
    forall i, k :: 0 <= i < k < |points| && points[i].id == points[k].id ==> i / UPSERT_BATCH_ROWS != k / UPSERT_BATCH_ROWS
  }

  class PgVectorTable {
    var rows: Rows
    // How many statements have failed so far for a reason of their own.
    ghost var faults: nat

    constructor ()
      ensures rows == map[]
    {
      rows, faults := map[], 0;
    }

    method Fault() returns (broken: bool)
      modifies `faults
      ensures faults == old(faults) + if broken then 1 else 0
    {
      broken := *;
      if broken { faults := faults + 1; }
    }

    // INSERT ... ON CONFLICT (point_id) DO UPDATE, which cannot affect a row twice; any statement may also fail.
    method Insert(work: Rows, batch: seq<VectorPoint>) returns (ok: bool, work': Rows)
      requires |batch| <= UPSERT_BATCH_ROWS && Wide(batch)
      modifies `faults
      ensures ok ==> work' == UpsertAll(work, batch)
      ensures old(faults) <= faults && (ok <==> faults == old(faults) && !Repeats(batch))
    {
      var values, params := BuildInsert(batch);
      var broken := Fault();
      ok := !broken && !Repeats(batch);
      work' := UpsertAll(work, InsertedRows(values, params));
    }

    // The loop over the batches, on the transaction's own view of the table.
    method InsertBatches(points: seq<VectorPoint>) returns (ok: bool, work: Rows)
      requires Wide(points)
      modifies `faults
      ensures ok ==> work == UpsertAll(rows, points)
      ensures old(faults) <= faults && (ok <==> faults == old(faults) && BatchesDistinct(points))
    {
      hide UpsertAll, Repeats, BatchesDistinct, Wide;
      ok, work := true, rows;
      NoBatchYet(rows, points);
      var batchStart := 0;
      ghost var n := 0;
      while batchStart < |points|
        invariant batchStart == n * UPSERT_BATCH_ROWS && ok && faults == old(faults)
        invariant work == UpsertAll(rows, points[..Cut(batchStart, |points|)])
        invariant BatchesDistinct(points[..Cut(batchStart, |points|)])
      {
        var batch := points[batchStart..Cut(batchStart + UPSERT_BATCH_ROWS, |points|)];
        WideBatch(points, batchStart, Cut(batchStart + UPSERT_BATCH_ROWS, |points|));
        BatchApplies(rows, points, batchStart);
        NextBatch(points, n);
        ok, work := Insert(work, batch);
        if !ok { return; }
        batchStart, n := batchStart + UPSERT_BATCH_ROWS, n + 1;
      }
      assert points[..|points|] == points;
    }

    /**
      upsert: batches of 4000 rows in one transaction. It is all-or-nothing, what it leaves is what a single upsert of
      all points leaves, and it succeeds if and only if no statement fails and no id comes twice within a batch.
    */
    method Upsert(points: seq<VectorPoint>) returns (ok: bool)
      requires Wide(points)
      modifies this
      ensures ok ==> rows == UpsertAll(old(rows), points)
      ensures !ok ==> rows == old(rows) || (faults != old(faults) && rows == UpsertAll(old(rows), points))
      ensures old(faults) <= faults && (ok <==> faults == old(faults) && BatchesDistinct(points))
    {
      ok := true;
      if |points| == 0 { return; }
      hide UpsertAll, Repeats, BatchesDistinct, Wide;
      var work;
      ok, work := InsertBatches(points);
      if !ok { return; }
      var broken := Fault();
      var committed: bool := *;
      if committed || !broken { rows := work; }
      ok := !broken;
    }

    // DELETE ... WHERE point_id = ANY($1) [AND organization_id = $2]
    method Delete(ids: seq<string>, org: string) returns (r: Result<(), AdapterError>)
      modifies this
      ensures DeleteOutcome(ids, org, old(rows), r, rows)
    {
      var organization := NormalOrg(org);
      if organization.Failure? { return Failure(organization.error); }
      if exists id :: id in ids && Blank(id) { return Failure(BadIds); }
      if |ids| == 0 { return Success(()); }
      if organization.value.Some? {
        rows := map p | p in rows && !(p in ids && rows[p].org == organization.value.value) :: rows[p];
      } else {
        rows := map p | p in rows && p !in ids :: rows[p];
      }
      r := Success(());
    }

    method DeleteByRecordIds(recordIds: seq<nat>, org: string) returns (r: Result<(), AdapterError>)
      modifies this
      ensures DeleteByRecordOutcome(recordIds, org, old(rows), r, rows)
    {
      var organization := NormalOrg(org);
      if organization.Failure? { return Failure(organization.error); }
      if 0 in recordIds { return Failure(BadIds); }
      if |recordIds| == 0 { return Success(()); }
      if organization.value.Some? {
        rows := map p | p in rows && !(InRecords(rows[p], recordIds) && rows[p].org == organization.value.value) :: rows[p];
      } else {
        rows := map p | p in rows && !InRecords(rows[p], recordIds) :: rows[p];
      }
      r := Success(());
    }
  }

  lemma NoBatchYet(rows: Rows, points: seq<VectorPoint>)
    ensures UpsertAll(rows, points[..0]) == rows && BatchesDistinct(points[..0])
  {
  }

  function Cut(i: nat, n: nat): nat {
    if i < n then i else n
  }

  lemma WideBatch(points: seq<VectorPoint>, start: nat, end: nat)
    requires Wide(points) && start <= end <= |points|
    ensures Wide(points[start..end])
  {
  }

  lemma NextBatch(points: seq<VectorPoint>, n: nat)
    requires n * UPSERT_BATCH_ROWS < |points| && BatchesDistinct(points[..n * UPSERT_BATCH_ROWS])
    ensures var start := n * UPSERT_BATCH_ROWS;
            var end := Cut(start + UPSERT_BATCH_ROWS, |points|);
            && (BatchesDistinct(points[..end]) <==> !Repeats(points[start..end]))
            && (Repeats(points[start..end]) ==> !BatchesDistinct(points))
  {
    var start := n * UPSERT_BATCH_ROWS;
    var end := Cut(start + UPSERT_BATCH_ROWS, |points|);
    forall i | start <= i < end ensures i / UPSERT_BATCH_ROWS == start / UPSERT_BATCH_ROWS {
    }
    forall i | 0 <= i < start ensures i / UPSERT_BATCH_ROWS < start / UPSERT_BATCH_ROWS {
    }
    if Repeats(points[start..end]) {
      var i, k :| 0 <= i < k < end - start && points[start..end][i].id == points[start..end][k].id;
      assert points[..end][start + i].id == points[..end][start + k].id;
      assert points[start + i].id == points[start + k].id;
    } else {
      forall i, k | 0 <= i < k < end
        ensures points[..end][i].id == points[..end][k].id ==> i / UPSERT_BATCH_ROWS != k / UPSERT_BATCH_ROWS
      {
        if start <= i {
          assert points[start..end][i - start] == points[i] && points[start..end][k - start] == points[k];
        } else if k < start {
          assert points[..start][i] == points[i] && points[..start][k] == points[k];
        }
      }
    }
  }

  // One more batch brings the transaction's view from its start to its end.
  lemma BatchApplies(rows: Rows, points: seq<VectorPoint>, start: nat)
    requires start < |points|
    ensures var end := Cut(start + UPSERT_BATCH_ROWS, |points|);
            UpsertAll(UpsertAll(rows, points[..start]), points[start..end]) == UpsertAll(rows, points[..end])
  {
    var end := Cut(start + UPSERT_BATCH_ROWS, |points|);
    assert points[..end] == points[..start] + points[start..end];
    UpsertInParts(rows, points[..start], points[start..end]);
  }

  predicate InRecords(row: Row, recordIds: seq<nat>) {
    row.record.Some? && row.record.value in recordIds
  }

  predicate OfOrg(row: Row, org: string) {
    org == "" || row.org == Trim(org)
  }

  /** What a delete by point id leaves, on either backend; the empty list deletes nothing. */
  predicate DeleteOutcome(ids: seq<string>, org: string, before: Rows, r: Result<(), AdapterError>, after: Rows) {
    if org != "" && Blank(org) then r == Failure(BlankOrganization) && after == before
    else if exists id :: id in ids && Blank(id) then r == Failure(BadIds) && after == before
    else r == Success(()) && after == map p | p in before && !(p in ids && OfOrg(before[p], org)) :: before[p]
  }

  predicate DeleteByRecordOutcome(recordIds: seq<nat>, org: string, before: Rows, r: Result<(), AdapterError>, after: Rows) {
    if org != "" && Blank(org) then r == Failure(BlankOrganization) && after == before
    else if 0 in recordIds then r == Failure(BadIds) && after == before
    else r == Success(()) && after == map p | p in before && !(InRecords(before[p], recordIds) && OfOrg(before[p], org)) :: before[p]
  }

  // ----- the Qdrant collection -----

  datatype Condition =
    | HasId(ids: seq<string>) | MatchOrg(value: string) | MatchRecord(record: nat) | Should(any: seq<nat>)

  datatype Selector = Points(ids: seq<string>) | FilterMust(must: seq<Condition>)

  predicate Meets(p: string, row: Row, c: Condition) {
    match c
    case HasId(ids) => p in ids
    case MatchOrg(value) => row.org == value
    case MatchRecord(record) => row.record == Some(record)
    case Should(any) => exists id :: id in any && row.record == Some(id)
  }

  predicate Selected(p: string, row: Row, selector: Selector) {
    match selector
    case Points(ids) => p in ids
    case FilterMust(must) => forall c :: c in must ==> Meets(p, row, c)
  }

  class QdrantCollection {
    var points: Rows

    constructor ()
      ensures points == map[]
    {
      points := map[];
    }

    method Upsert(batch: seq<VectorPoint>)
      modifies this
      ensures points == UpsertAll(old(points), batch)
    {
      if |batch| == 0 { return; }
      points := UpsertAll(points, batch);
    }

    // The server removes what the selector selects.
    method Remove(selector: Selector)
      modifies this
      ensures points == map p | p in old(points) && !Selected(p, old(points)[p], selector) :: old(points)[p]
    {
      points := map p | p in points && !Selected(p, points[p], selector) :: points[p];
    }

    /** delete: on the same contents it leaves the same contents as the SQL adapter, with the same errors. */
    method Delete(ids: seq<string>, org: string) returns (r: Result<(), AdapterError>)
      modifies this
      ensures DeleteOutcome(ids, org, old(points), r, points)
    {
      var organization := NormalOrg(org);
      if organization.Failure? { return Failure(organization.error); }
      if exists id :: id in ids && Blank(id) { return Failure(BadIds); }
      if |ids| == 0 { return Success(()); }
      var selector := if organization.value.Some?
        then FilterMust([HasId(ids), MatchOrg(organization.value.value)]) else Points(ids);
      BothConditions(HasId(ids), MatchOrg(Trim(org)));
      Remove(selector);
      r := Success(());
    }

    method DeleteByRecordIds(recordIds: seq<nat>, org: string) returns (r: Result<(), AdapterError>)
      modifies this
      ensures DeleteByRecordOutcome(recordIds, org, old(points), r, points)
    {
      var organization := NormalOrg(org);
      if organization.Failure? { return Failure(organization.error); }
      if 0 in recordIds { return Failure(BadIds); }
      if |recordIds| == 0 { return Success(()); }
      var selector := if organization.value.Some?
        then FilterMust([Should(recordIds), MatchOrg(organization.value.value)]) else FilterMust([Should(recordIds)]);
      BothConditions(Should(recordIds), MatchOrg(Trim(org)));
      Remove(selector);
      r := Success(());
    }
  }

  lemma BothConditions(a: Condition, b: Condition)
    ensures forall p, row :: Selected(p, row, FilterMust([a, b])) <==> Meets(p, row, a) && Meets(p, row, b)
    ensures forall p, row :: Selected(p, row, FilterMust([a])) <==> Meets(p, row, a)
  {
    assert forall c :: c in [a, b] <==> c == a || c == b;
    assert forall c :: c in [a] <==> c == a;
    hide Meets;
    forall p, row ensures Selected(p, row, FilterMust([a, b])) <==> Meets(p, row, a) && Meets(p, row, b) {
      assert a in [a, b] && b in [a, b];
    }
    forall p, row ensures Selected(p, row, FilterMust([a])) <==> Meets(p, row, a) {
      assert a in [a];
    }
  }

  // ----- agreement -----

  lemma DistinctIdsMakeDistinctBatches(points: seq<VectorPoint>)
    ensures !Repeats(points) ==> BatchesDistinct(points)
    ensures |points| <= UPSERT_BATCH_ROWS ==> (BatchesDistinct(points) <==> !Repeats(points))
  {
    if |points| <= UPSERT_BATCH_ROWS {
      forall i | 0 <= i < |points| ensures i / UPSERT_BATCH_ROWS == 0 {
      }
    }
  }
}
