/*
 * The role-based access control contract: seven kinds of record (users,
 * projects, tasks, permissions, roles, RBAC models and RBAC matrices)
 * sharing ONE namespace. Every create is an unconditional put under the
 * record's own id, every query reads one key, every "query all" scans the
 * whole namespace whatever kind each entry holds.
 */
module Rbac {
  import opened WorldState

  datatype User = User(uid: string, active: string, userType: string, pubKey: string)

  datatype Project = Project(pid: string, creatorUid: string, createDate: string, dueDate: string, active: string)

  datatype Task = Task(
    tid: string,
    pid: string,
    creatorUid: string,
    assigneeUid: string,
    createDate: string,
    completedDate: string,
    dueDate: string,
    responsible: string,
    active: string)

  datatype Permission = Permission(permId: string, ableTo: string)

  /** A role embeds copies of its permissions; `None` is the source's nil slice pointer. */
  datatype Role = Role(rid: string, roleName: string, perms: Option<seq<Permission>>)

  /** An assignment embeds a copy of its role; `None` is the source's nil role pointer. */
  datatype RbacModel = RbacModel(rmid: string, pid: string, role: Option<Role>, uid: string)

  datatype RbacMatrix = RbacMatrix(mid: string, rbac: Option<seq<RbacModel>>)

  /** What one key of the shared namespace holds. */
  datatype Record =
    | UserRecord(user: User)
    | ProjectRecord(project: Project)
    | TaskRecord(task: Task)
    | PermRecord(perm: Permission)
    | RoleRecord(role: Role)
    | RbacModelRecord(model: RbacModel)
    | RbacMatrixRecord(matrix: RbacMatrix)

  type Store = map<string, Record>

  /** The record's own id field, the key its create operation writes it under. */
  function IdOf(r: Record): string {
    match r
    case UserRecord(u) => u.uid
    case ProjectRecord(p) => p.pid
    case TaskRecord(t) => t.tid
    case PermRecord(p) => p.permId
    case RoleRecord(r) => r.rid
    case RbacModelRecord(m) => m.rmid
    case RbacMatrixRecord(m) => m.mid
  }

  /** Every record sits under its own id. */
  ghost predicate KeysMatchIds(s: Store) {
    forall k :: k in s ==> IdOf(s[k]) == k
  }

  /** `s` after the puts in `puts`, in order. */
  function PutAll(s: Store, puts: seq<KV<Record>>): (r: Store)
    ensures forall k :: k in r <==> k in s || k in KeysOf(puts)
    decreases |puts|
  {
    if puts == [] then s
    else
      assert KeysOf(puts) == [puts[0].key] + KeysOf(puts[1..]);
      PutAll(s[puts[0].key := puts[0].value], puts[1..])
  }

  /** A single create is a single put: `PutAll` of one entry is the map update the `Create*` methods state. */
  lemma SinglePut(s: Store, kv: KV<Record>)
    ensures PutAll(s, [kv]) == s[kv.key := kv.value]
  {
    assert [kv][1..] == [];
  }

  /** One more create after a run of creates: the run's store with that key overwritten. */
  lemma {:induction false} PutAllSnoc(s: Store, puts: seq<KV<Record>>, kv: KV<Record>)
    ensures PutAll(s, puts + [kv]) == PutAll(s, puts)[kv.key := kv.value]
    decreases |puts|
  {
    if puts == [] {
      assert puts + [kv] == [kv];
      SinglePut(s, kv);
    } else {
      assert (puts + [kv])[0] == puts[0];
      assert (puts + [kv])[1..] == puts[1..] + [kv];
      PutAllSnoc(s[puts[0].key := puts[0].value], puts[1..], kv);
    }
  }

  /**
   * Records are embedded by value: a key that no later put writes keeps its
   * record exactly, so a stored Role's permission list and a stored
   * RbacModel's role are snapshots that later creates of Permissions or
   * Roles under their own keys do not reach.
   */
  lemma {:induction false} UnwrittenKeyKeepsRecord(s: Store, puts: seq<KV<Record>>, k: string)
    requires k in s
    requires forall i :: 0 <= i < |puts| ==> puts[i].key != k
    ensures k in PutAll(s, puts) && PutAll(s, puts)[k] == s[k]
    decreases |puts|
  {
    if puts != [] {
      var s1 := s[puts[0].key := puts[0].value];
      forall i | 0 <= i < |puts[1..]| ensures puts[1..][i].key != k {
        assert puts[1..][i] == puts[i + 1];
      }
      UnwrittenKeyKeepsRecord(s1, puts[1..], k);
    }
  }

  /** The last put to a key decides what it holds, whatever kind was there before. */
  lemma {:induction false} LastPutWins(s: Store, puts: seq<KV<Record>>, j: nat)
    requires j < |puts|
    requires forall i :: j < i < |puts| ==> puts[i].key != puts[j].key
    ensures PutAll(s, puts)[puts[j].key] == puts[j].value
    decreases |puts|
  {
    if j == 0 {
      var s1 := s[puts[0].key := puts[0].value];
      forall i | 0 <= i < |puts[1..]| ensures puts[1..][i].key != puts[0].key {
        assert puts[1..][i] == puts[i + 1];
      }
      UnwrittenKeyKeepsRecord(s1, puts[1..], puts[0].key);
    } else {
      forall i | j - 1 < i < |puts[1..]| ensures puts[1..][i].key != puts[1..][j - 1].key {
        assert puts[1..][i] == puts[i + 1];
      }
      LastPutWins(s[puts[0].key := puts[0].value], puts[1..], j - 1);
    }
  }

  /** `s` with only the active status of the User under `uid` replaced. */
  function WithUserActive(s: Store, uid: string, active: string): (r: Store)
    requires uid in s && s[uid].UserRecord?
    ensures r.Keys == s.Keys && r[uid].UserRecord? && r[uid].user.active == active
    ensures r[uid].user.(active := s[uid].user.active) == s[uid].user
    ensures forall k :: k in s && k != uid ==> r[k] == s[k]
    ensures KeysMatchIds(s) ==> KeysMatchIds(r)
  {
    s[uid := UserRecord(s[uid].user.(active := active))]
  }

  /** `s` with only the active status of the Project under `pid` replaced. */
  function WithProjectActive(s: Store, pid: string, active: string): (r: Store)
    requires pid in s && s[pid].ProjectRecord?
    ensures r.Keys == s.Keys && r[pid].ProjectRecord? && r[pid].project.active == active
    ensures r[pid].project.(active := s[pid].project.active) == s[pid].project
    ensures forall k :: k in s && k != pid ==> r[k] == s[k]
    ensures KeysMatchIds(s) ==> KeysMatchIds(r)
  {
    s[pid := ProjectRecord(s[pid].project.(active := active))]
  }

  /*
   * Decoding a stored record as one kind. The source decodes with
   * `_ = json.Unmarshal` into a fresh struct and ignores the error: a record
   * of the requested kind comes back exactly; a record of another kind
   * comes back as whatever the lenient decoder fills in, which this model
   * leaves unspecified.
   */

  method DecodeUser(r: Record) returns (u: User)
    ensures r.UserRecord? ==> u == r.user
  {
    if r.UserRecord? { u := r.user; } else { u := *; }
  }

  method DecodeProject(r: Record) returns (p: Project)
    ensures r.ProjectRecord? ==> p == r.project
  {
    if r.ProjectRecord? { p := r.project; } else { p := *; }
  }

  method DecodeTask(r: Record) returns (t: Task)
    ensures r.TaskRecord? ==> t == r.task
  {
    if r.TaskRecord? { t := r.task; } else { t := *; }
  }

  method DecodePerm(r: Record) returns (p: Permission)
    ensures r.PermRecord? ==> p == r.perm
  {
    if r.PermRecord? { p := r.perm; } else { p := *; }
  }

  method DecodeRole(r: Record) returns (role: Role)
    ensures r.RoleRecord? ==> role == r.role
  {
    if r.RoleRecord? { role := r.role; } else { role := *; }
  }

  method DecodeRbacModel(r: Record) returns (m: RbacModel)
    ensures r.RbacModelRecord? ==> m == r.model
  {
    if r.RbacModelRecord? { m := r.model; } else { m := *; }
  }

  method DecodeRbacMatrix(r: Record) returns (m: RbacMatrix)
    ensures r.RbacMatrixRecord? ==> m == r.matrix
  {
    if r.RbacMatrixRecord? { m := r.matrix; } else { m := *; }
  }

  /** The contract over its shared namespace. */
  class RbacContract {
    var ws: Store

    constructor ()
      ensures ws == map[]
    {
      ws := map[];
    }

    // ---- creates: unconditional puts under the record's own id ----

    method CreateUser(uid: string, active: string, userType: string, pubKey: string)
      modifies this
      ensures ws == old(ws)[uid := UserRecord(User(uid, active, userType, pubKey))]
      ensures KeysMatchIds(old(ws)) ==> KeysMatchIds(ws)
    {
      var user := User(uid, active, userType, pubKey);
      ws := ws[uid := UserRecord(user)];
    }

    method CreateProject(pid: string, creatorUid: string, createDate: string, dueDate: string, active: string)
      modifies this
      ensures ws == old(ws)[pid := ProjectRecord(Project(pid, creatorUid, createDate, dueDate, active))]
      ensures KeysMatchIds(old(ws)) ==> KeysMatchIds(ws)
    {
      var project := Project(pid, creatorUid, createDate, dueDate, active);
      ws := ws[pid := ProjectRecord(project)];
    }

    method CreateTask(tid: string, pid: string, creatorUid: string, assigneeUid: string, createDate: string,
                      completedDate: string, dueDate: string, responsible: string, active: string)
      modifies this
      ensures ws == old(ws)[tid := TaskRecord(Task(tid, pid, creatorUid, assigneeUid, createDate, completedDate, dueDate, responsible, active))]
      ensures KeysMatchIds(old(ws)) ==> KeysMatchIds(ws)
    {
      var task := Task(tid, pid, creatorUid, assigneeUid, createDate, completedDate, dueDate, responsible, active);
      ws := ws[tid := TaskRecord(task)];
    }

    method CreatePerm(permId: string, ableTo: string)
      modifies this
      ensures ws == old(ws)[permId := PermRecord(Permission(permId, ableTo))]
      ensures KeysMatchIds(old(ws)) ==> KeysMatchIds(ws)
    {
      var permission := Permission(permId, ableTo);
      ws := ws[permId := PermRecord(permission)];
    }

    /** The permissions are stored as given, by value; they need not exist as records. */
    method CreateRole(rid: string, roleName: string, perms: Option<seq<Permission>>)
      modifies this
      ensures ws == old(ws)[rid := RoleRecord(Role(rid, roleName, perms))]
      ensures KeysMatchIds(old(ws)) ==> KeysMatchIds(ws)
    {
      var role := Role(rid, roleName, perms);
      ws := ws[rid := RoleRecord(role)];
    }

    /** The role is stored as given, by value; it need not exist as a record. */
    method CreateRbacModel(rmid: string, pid: string, role: Option<Role>, uid: string)
      modifies this
      ensures ws == old(ws)[rmid := RbacModelRecord(RbacModel(rmid, pid, role, uid))]
      ensures KeysMatchIds(old(ws)) ==> KeysMatchIds(ws)
    {
      var model := RbacModel(rmid, pid, role, uid);
      ws := ws[rmid := RbacModelRecord(model)];
    }

    method CreateRbacMatrix(mid: string, rbac: Option<seq<RbacModel>>)
      modifies this
      ensures ws == old(ws)[mid := RbacMatrixRecord(RbacMatrix(mid, rbac))]
      ensures KeysMatchIds(old(ws)) ==> KeysMatchIds(ws)
    {
      var matrix := RbacMatrix(mid, rbac);
      ws := ws[mid := RbacMatrixRecord(matrix)];
    }

    // ---- queries: one key, "<key> does not exist" when absent ----

    method QueryUser(uid: string) returns (r: Result<User>)
      ensures uid !in ws ==> r == Err(NotFound(uid))
      ensures uid in ws ==> r.Ok?
      ensures uid in ws && ws[uid].UserRecord? ==> r.value == ws[uid].user
    {
      if uid !in ws {
        return Err(NotFound(uid));
      }
      var user := DecodeUser(ws[uid]);
      r := Ok(user);
    }

    method QueryProject(pid: string) returns (r: Result<Project>)
      ensures pid !in ws ==> r == Err(NotFound(pid))
      ensures pid in ws ==> r.Ok?
      ensures pid in ws && ws[pid].ProjectRecord? ==> r.value == ws[pid].project
    {
      if pid !in ws {
        return Err(NotFound(pid));
      }
      var project := DecodeProject(ws[pid]);
      r := Ok(project);
    }

    method QueryTask(tid: string) returns (r: Result<Task>)
      ensures tid !in ws ==> r == Err(NotFound(tid))
      ensures tid in ws ==> r.Ok?
      ensures tid in ws && ws[tid].TaskRecord? ==> r.value == ws[tid].task
    {
      if tid !in ws {
        return Err(NotFound(tid));
      }
      var task := DecodeTask(ws[tid]);
      r := Ok(task);
    }

    method QueryPerm(permId: string) returns (r: Result<Permission>)
      ensures permId !in ws ==> r == Err(NotFound(permId))
      ensures permId in ws ==> r.Ok?
      ensures permId in ws && ws[permId].PermRecord? ==> r.value == ws[permId].perm
    {
      if permId !in ws {
        return Err(NotFound(permId));
      }
      var permission := DecodePerm(ws[permId]);
      r := Ok(permission);
    }

    method QueryRole(rid: string) returns (r: Result<Role>)
      ensures rid !in ws ==> r == Err(NotFound(rid))
      ensures rid in ws ==> r.Ok?
      ensures rid in ws && ws[rid].RoleRecord? ==> r.value == ws[rid].role
    {
      if rid !in ws {
        return Err(NotFound(rid));
      }
      var role := DecodeRole(ws[rid]);
      r := Ok(role);
    }

    method QueryRbacModel(rmid: string) returns (r: Result<RbacModel>)
      ensures rmid !in ws ==> r == Err(NotFound(rmid))
      ensures rmid in ws ==> r.Ok?
      ensures rmid in ws && ws[rmid].RbacModelRecord? ==> r.value == ws[rmid].model
    {
      if rmid !in ws {
        return Err(NotFound(rmid));
      }
      var model := DecodeRbacModel(ws[rmid]);
      r := Ok(model);
    }

    method QueryRbacMatrix(mid: string) returns (r: Result<RbacMatrix>)
      ensures mid !in ws ==> r == Err(NotFound(mid))
      ensures mid in ws ==> r.Ok?
      ensures mid in ws && ws[mid].RbacMatrixRecord? ==> r.value == ws[mid].matrix
    {
      if mid !in ws {
        return Err(NotFound(mid));
      }
      var matrix := DecodeRbacMatrix(ws[mid]);
      r := Ok(matrix);
    }

    // ---- full scans: one entry per key of the namespace, in key order ----

    method QueryAllUsers() returns (results: seq<QueryResult<User>>)
      ensures SortedListing(ws.Keys, ResultKeys(results))
      ensures forall i :: 0 <= i < |results| && ws[results[i].key].UserRecord? ==> results[i].record == ws[results[i].key].user
    {
      var scan := GetStateByRange(ws);
      results := [];
      for i := 0 to |scan|
        invariant |results| == i
        invariant forall j :: 0 <= j < i ==> results[j].key == scan[j].key
        invariant forall j :: 0 <= j < i && scan[j].value.UserRecord? ==> results[j].record == scan[j].value.user
      {
        var user := DecodeUser(scan[i].value);
        results := results + [QueryResult(scan[i].key, user)];
      }
      assert ResultKeys(results) == KeysOf(scan);
    }

    method QueryAllProjects() returns (results: seq<QueryResult<Project>>)
      ensures SortedListing(ws.Keys, ResultKeys(results))
      ensures forall i :: 0 <= i < |results| && ws[results[i].key].ProjectRecord? ==> results[i].record == ws[results[i].key].project
    {
      var scan := GetStateByRange(ws);
      results := [];
      for i := 0 to |scan|
        invariant |results| == i
        invariant forall j :: 0 <= j < i ==> results[j].key == scan[j].key
        invariant forall j :: 0 <= j < i && scan[j].value.ProjectRecord? ==> results[j].record == scan[j].value.project
      {
        var project := DecodeProject(scan[i].value);
        results := results + [QueryResult(scan[i].key, project)];
      }
      assert ResultKeys(results) == KeysOf(scan);
    }

    method QueryAllTasks() returns (results: seq<QueryResult<Task>>)
      ensures SortedListing(ws.Keys, ResultKeys(results))
      ensures forall i :: 0 <= i < |results| && ws[results[i].key].TaskRecord? ==> results[i].record == ws[results[i].key].task
    {
      var scan := GetStateByRange(ws);
      results := [];
      for i := 0 to |scan|
        invariant |results| == i
        invariant forall j :: 0 <= j < i ==> results[j].key == scan[j].key
        invariant forall j :: 0 <= j < i && scan[j].value.TaskRecord? ==> results[j].record == scan[j].value.task
      {
        var task := DecodeTask(scan[i].value);
        results := results + [QueryResult(scan[i].key, task)];
      }
      assert ResultKeys(results) == KeysOf(scan);
    }

    method QueryAllPerms() returns (results: seq<QueryResult<Permission>>)
      ensures SortedListing(ws.Keys, ResultKeys(results))
      ensures forall i :: 0 <= i < |results| && ws[results[i].key].PermRecord? ==> results[i].record == ws[results[i].key].perm
    {
      var scan := GetStateByRange(ws);
      results := [];
      for i := 0 to |scan|
        invariant |results| == i
        invariant forall j :: 0 <= j < i ==> results[j].key == scan[j].key
        invariant forall j :: 0 <= j < i && scan[j].value.PermRecord? ==> results[j].record == scan[j].value.perm
      {
        var permission := DecodePerm(scan[i].value);
        results := results + [QueryResult(scan[i].key, permission)];
      }
      assert ResultKeys(results) == KeysOf(scan);
    }

    method QueryAllRoles() returns (results: seq<QueryResult<Role>>)
      ensures SortedListing(ws.Keys, ResultKeys(results))
      ensures forall i :: 0 <= i < |results| && ws[results[i].key].RoleRecord? ==> results[i].record == ws[results[i].key].role
    {
      var scan := GetStateByRange(ws);
      results := [];
      for i := 0 to |scan|
        invariant |results| == i
        invariant forall j :: 0 <= j < i ==> results[j].key == scan[j].key
        invariant forall j :: 0 <= j < i && scan[j].value.RoleRecord? ==> results[j].record == scan[j].value.role
      {
        var role := DecodeRole(scan[i].value);
        results := results + [QueryResult(scan[i].key, role)];
      }
      assert ResultKeys(results) == KeysOf(scan);
    }

    method QueryAllRbacModels() returns (results: seq<QueryResult<RbacModel>>)
      ensures SortedListing(ws.Keys, ResultKeys(results))
      ensures forall i :: 0 <= i < |results| && ws[results[i].key].RbacModelRecord? ==> results[i].record == ws[results[i].key].model
    {
      var scan := GetStateByRange(ws);
      results := [];
      for i := 0 to |scan|
        invariant |results| == i
        invariant forall j :: 0 <= j < i ==> results[j].key == scan[j].key
        invariant forall j :: 0 <= j < i && scan[j].value.RbacModelRecord? ==> results[j].record == scan[j].value.model
      {
        var model := DecodeRbacModel(scan[i].value);
        results := results + [QueryResult(scan[i].key, model)];
      }
      assert ResultKeys(results) == KeysOf(scan);
    }

    method QueryAllRbacMatrices() returns (results: seq<QueryResult<RbacMatrix>>)
      ensures SortedListing(ws.Keys, ResultKeys(results))
      ensures forall i :: 0 <= i < |results| && ws[results[i].key].RbacMatrixRecord? ==> results[i].record == ws[results[i].key].matrix
    {
      var scan := GetStateByRange(ws);
      results := [];
      for i := 0 to |scan|
        invariant |results| == i
        invariant forall j :: 0 <= j < i ==> results[j].key == scan[j].key
        invariant forall j :: 0 <= j < i && scan[j].value.RbacMatrixRecord? ==> results[j].record == scan[j].value.matrix
      {
        var matrix := DecodeRbacMatrix(scan[i].value);
        results := results + [QueryResult(scan[i].key, matrix)];
      }
      assert ResultKeys(results) == KeysOf(scan);
    }

    // ---- single-field read-modify-write ----

    /**
     * Sets the active status of the record under `uid`, read as a User. On a
     * User record only `active` changes; a record of another kind is
     * replaced by a User, with `active` set and its other fields whatever
     * the lenient decode produced.
     */
    method ChangeUserActiveStatus(uid: string, active: string) returns (out: Outcome)
      modifies this
      ensures uid !in old(ws) ==> out == Fail(NotFound(uid)) && ws == old(ws)
      ensures uid in old(ws) ==> out == Pass && ws.Keys == old(ws).Keys
      ensures uid in old(ws) ==> ws[uid].UserRecord? && ws[uid].user.active == active
      ensures forall k :: k in old(ws) && k != uid ==> ws[k] == old(ws)[k]
      ensures uid in old(ws) && old(ws)[uid].UserRecord? ==> ws == WithUserActive(old(ws), uid, active)
    {
      var r := QueryUser(uid);
      if r.Err? {
        return Fail(r.error);
      }
      var user := r.value.(active := active);
      ws := ws[uid := UserRecord(user)];
      out := Pass;
    }

    /**
     * Sets the active status of the record under `pid`, read as a Project; on
     * a record of another kind, as for `ChangeUserActiveStatus`.
     */
    method ChangeProjectActiveStatus(pid: string, active: string) returns (out: Outcome)
      modifies this
      ensures pid !in old(ws) ==> out == Fail(NotFound(pid)) && ws == old(ws)
      ensures pid in old(ws) ==> out == Pass && ws.Keys == old(ws).Keys
      ensures pid in old(ws) ==> ws[pid].ProjectRecord? && ws[pid].project.active == active
      ensures forall k :: k in old(ws) && k != pid ==> ws[k] == old(ws)[k]
      ensures pid in old(ws) && old(ws)[pid].ProjectRecord? ==> ws == WithProjectActive(old(ws), pid, active)
    {
      var r := QueryProject(pid);
      if r.Err? {
        return Fail(r.error);
      }
      var project := r.value.(active := active);
      ws := ws[pid := ProjectRecord(project)];
      out := Pass;
    }
  }

  /** A created user reads back with exactly the fields written. */
  method CreateThenQueryUser(c: RbacContract, uid: string, active: string, userType: string, pubKey: string)
    returns (r: Result<User>)
    modifies c
    ensures r == Ok(User(uid, active, userType, pubKey))
  {
    c.CreateUser(uid, active, userType, pubKey);
    r := c.QueryUser(uid);
  }

  /**
   * A role keeps the permission copy it was created with: re-creating that
   * permission under its own id with a new meaning does not reach the role.
   */
  method RoleKeepsPermissionCopy(c: RbacContract, rid: string, roleName: string, p: Permission, ableTo: string)
    returns (r: Result<Role>)
    requires p.permId != rid
    modifies c
    ensures r == Ok(Role(rid, roleName, Some([p])))
  {
    c.CreatePerm(p.permId, p.ableTo);
    c.CreateRole(rid, roleName, Some([p]));
    ghost var withRole := c.ws;
    c.CreatePerm(p.permId, ableTo);
    ghost var later := [KV(p.permId, PermRecord(Permission(p.permId, ableTo)))];
    SinglePut(withRole, later[0]);
    UnwrittenKeyKeepsRecord(withRole, later, rid);
    r := c.QueryRole(rid);
  }

  /** A create replaces whatever kind of record held the key before. */
  method CreateOverwritesOtherKind(c: RbacContract, id: string, user: User, ableTo: string)
    returns (r: Result<Permission>)
    modifies c
    ensures id in c.ws && c.ws[id] == PermRecord(Permission(id, ableTo))
    ensures r == Ok(Permission(id, ableTo))
  {
    ghost var before := c.ws;
    c.CreateUser(id, user.active, user.userType, user.pubKey);
    c.CreatePerm(id, ableTo);
    ghost var run := [KV(id, UserRecord(User(id, user.active, user.userType, user.pubKey))),
                      KV(id, PermRecord(Permission(id, ableTo)))];
    SinglePut(before, run[0]);
    PutAllSnoc(before, run[..1], run[1]);
    assert run == run[..1] + [run[1]];
    LastPutWins(before, run, 1);
    r := c.QueryPerm(id);
  }
}
