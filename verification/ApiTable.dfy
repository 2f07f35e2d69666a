/** The priority table of src/server/api_table.rs. */
module ApiTables {
  import opened Wrappers
  import opened Rpc
  import opened Sequences

  datatype ApiInfo = ApiInfo(clientId: ClientId, priority: Priority)

  type Table = map<string, seq<ApiInfo>>

  // ---------- Values the class below manipulates ----------

  function Infos(t: Table, name: string): seq<ApiInfo> {
    if name in t then t[name] else []
  }

  ghost predicate Ascending(infos: seq<ApiInfo>) {
    forall i, j :: 0 <= i < j < |infos| ==> infos[i].priority <= infos[j].priority
  }

  /** What a binary search for `priority` may answer: any index holding an equal priority, or,
      when there is none, the place where it would go. */
  predicate BinarySearchAnswer(infos: seq<ApiInfo>, priority: Priority, index: int) {
    && 0 <= index <= |infos|
    && (if exists j :: 0 <= j < |infos| && infos[j].priority == priority
        then index < |infos| && infos[index].priority == priority
        else && (forall j :: 0 <= j < index ==> infos[j].priority < priority)
             && (forall j :: index <= j < |infos| ==> priority < infos[j].priority))
  }

  ghost predicate InsertedInto(infos: seq<ApiInfo>, info: ApiInfo, infos': seq<ApiInfo>) {
    exists index :: BinarySearchAnswer(infos, info.priority, index)
                    && infos' == infos[..index] + [info] + infos[index..]
  }

  ghost predicate Registered(t: Table, name: string, info: ApiInfo, t': Table) {
    && name in t'
    && InsertedInto(Infos(t, name), info, t'[name])
    && t' == t[name := t'[name]]
  }

  function Retained(infos: seq<ApiInfo>, clientId: ClientId): seq<ApiInfo> {
    if infos == [] then []
    else (if infos[0].clientId != clientId then [infos[0]] else []) + Retained(infos[1..], clientId)
  }

  function Deregistered(t: Table, clientId: ClientId): Table {
    map name | name in t && Retained(t[name], clientId) != [] :: Retained(t[name], clientId)
  }

  function GetFirst(t: Table, name: string): Option<ApiInfo> {
    if name in t && |t[name]| > 0 then Some(t[name][0]) else None
  }

  function SkipWhileNot(infos: seq<ApiInfo>, clientId: ClientId): seq<ApiInfo> {
    if infos != [] && infos[0].clientId != clientId then SkipWhileNot(infos[1..], clientId) else infos
  }

  function GetNext(t: Table, name: string, clientId: ClientId): Option<ApiInfo> {
    if name in t then
      var rest := SkipWhileNot(t[name], clientId);
      if |rest| > 1 then Some(rest[1]) else None
    else
      None
  }

  /** The table's invariant: no list is empty and every list is sorted. */
  ghost predicate WellFormed(t: Table) {
    forall name :: name in t ==> t[name] != [] && Ascending(t[name])
  }

  // ---------- The class ----------

  class ApiTable {
    var nameInfos: Table

    constructor ()
      ensures nameInfos == map[]
    {
      nameInfos := map[];
    }

    method Register(name: string, info: ApiInfo)
      requires WellFormed(nameInfos)
      modifies this
      ensures Registered(old(nameInfos), name, info, nameInfos)
      ensures WellFormed(nameInfos)
    {
      var infos := Infos(nameInfos, name);
      BinarySearchHasAnswer(infos, info.priority);
      var index :| 0 <= index <= |infos| && BinarySearchAnswer(infos, info.priority, index);
      InsertKeepsAscending(infos, info, index);
      var infos' := infos[..index] + [info] + infos[index..];
      nameInfos := nameInfos[name := infos'];
    }

    method DeregisterByClient(clientId: ClientId)
      modifies this
      ensures nameInfos == Deregistered(old(nameInfos), clientId)
    {
      hide Retained;
      var emptyNames: set<string> := {};
      var names := nameInfos.Keys;
      while names != {}
        invariant names <= nameInfos.Keys == old(nameInfos.Keys)
        invariant emptyNames <= nameInfos.Keys - names
        invariant forall n :: n in names ==> nameInfos[n] == old(nameInfos)[n]
        invariant forall n :: n in nameInfos.Keys - names ==>
          nameInfos[n] == Retained(old(nameInfos)[n], clientId) && (n in emptyNames <==> nameInfos[n] == [])
        decreases names
      {
        var name :| name in names;
        var infos := Retained(nameInfos[name], clientId);
        nameInfos := nameInfos[name := infos];
        if infos == [] {
          emptyNames := emptyNames + {name};
        }
        names := names - {name};
      }
      ghost var retained := nameInfos;
      while emptyNames != {}
        invariant emptyNames <= nameInfos.Keys <= retained.Keys
        invariant forall n :: n in nameInfos ==> nameInfos[n] == retained[n]
        invariant forall n :: n in retained && retained[n] != [] ==> n in nameInfos
        invariant forall n :: n in nameInfos && nameInfos[n] == [] ==> n in emptyNames
        invariant forall n :: n in emptyNames ==> retained[n] == []
        decreases emptyNames
      {
        var name :| name in emptyNames;
        nameInfos := nameInfos - {name};
        emptyNames := emptyNames - {name};
      }
    }
  }

  // ---------- Insertion ----------

  lemma BinarySearchHasAnswer(infos: seq<ApiInfo>, priority: Priority)
    requires Ascending(infos)
    ensures exists index :: BinarySearchAnswer(infos, priority, index)
  {
    if j :| 0 <= j < |infos| && infos[j].priority == priority {
      assert BinarySearchAnswer(infos, priority, j);
    } else {
      var index := 0;
      while index < |infos| && infos[index].priority < priority
        invariant 0 <= index <= |infos|
        invariant forall j :: 0 <= j < index ==> infos[j].priority < priority
      {
        index := index + 1;
      }
      assert BinarySearchAnswer(infos, priority, index);
    }
  }

  lemma InsertKeepsAscending(infos: seq<ApiInfo>, info: ApiInfo, index: int)
    requires Ascending(infos) && BinarySearchAnswer(infos, info.priority, index)
    ensures Ascending(infos[..index] + [info] + infos[index..])
  {
  }

  // ---------- Deregistration ----------

  lemma {:induction false} RetainedMembers(infos: seq<ApiInfo>, clientId: ClientId, info: ApiInfo)
    ensures info in Retained(infos, clientId) <==> info in infos && info.clientId != clientId
  {
    if infos != [] {
      RetainedMembers(infos[1..], clientId, info);
    }
  }

  lemma {:induction false} RetainedCounts(infos: seq<ApiInfo>, clientId: ClientId, info: ApiInfo)
    ensures multiset(Retained(infos, clientId))[info] ==
            (if info.clientId == clientId then 0 else multiset(infos)[info])
  {
    if infos != [] {
      RetainedCounts(infos[1..], clientId, info);
      assert infos == [infos[0]] + infos[1..];
    }
  }

  lemma {:induction false} RetainedAscending(infos: seq<ApiInfo>, clientId: ClientId)
    requires Ascending(infos)
    ensures Ascending(Retained(infos, clientId))
  {
    if infos != [] {
      var rest := Retained(infos[1..], clientId);
      RetainedAscending(infos[1..], clientId);
      if infos[0].clientId != clientId {
        forall j | 0 <= j < |rest| ensures infos[0].priority <= rest[j].priority {
          RetainedMembers(infos[1..], clientId, rest[j]);
        }
      }
    }
  }

  lemma RegisterKeepsWellFormed(t: Table, name: string, info: ApiInfo, t': Table)
    requires WellFormed(t) && Registered(t, name, info, t')
    ensures WellFormed(t')
  {
    var infos := Infos(t, name);
    var index :| BinarySearchAnswer(infos, info.priority, index)
                 && t'[name] == infos[..index] + [info] + infos[index..];
    InsertKeepsAscending(infos, info, index);
  }

  lemma DeregisterKeepsWellFormed(t: Table, clientId: ClientId)
    requires WellFormed(t)
    ensures WellFormed(Deregistered(t, clientId))
  {
    forall name | name in t
      ensures Ascending(Retained(t[name], clientId))
    {
      RetainedAscending(t[name], clientId);
    }
  }

  // ---------- Whole histories of a table ----------

  datatype Op = Register(name: string, info: ApiInfo) | Deregister(clientId: ClientId)

  ghost predicate OpStep(t: Table, op: Op, t': Table) {
    match op
    case Register(name, info) => Registered(t, name, info, t')
    case Deregister(clientId) => t' == Deregistered(t, clientId)
  }

  /** `t` is a table that `ops`, applied in order to a new table, can produce. */
  ghost predicate Produces(ops: seq<Op>, t: Table) {
    if ops == [] then t == map[]
    else exists t0 :: Produces(DropLast(ops), t0) && OpStep(t0, LastOf(ops), t)
  }

  /** The registrations under `name` that no later deregistration of their client undoes. */
  ghost function Surviving(ops: seq<Op>, name: string): multiset<ApiInfo> {
    if ops == [] then multiset{}
    else if ops[0].Register? && ops[0].name == name && Deregister(ops[0].info.clientId) !in ops[1..] then
      multiset{ops[0].info} + Surviving(ops[1..], name)
    else
      Surviving(ops[1..], name)
  }

  lemma {:induction false} SurvivingRegister(ops: seq<Op>, op: Op, name: string)
    requires op.Register?
    ensures Surviving(ops + [op], name) ==
            Surviving(ops, name) + (if op.name == name then multiset{op.info} else multiset{})
  {
    if ops == [] {
      assert ops + [op] == [op];
    } else {
      assert (ops + [op])[1..] == ops[1..] + [op];
      SurvivingRegister(ops[1..], op, name);
    }
  }

  lemma {:induction false} SurvivingDeregister(ops: seq<Op>, op: Op, name: string, info: ApiInfo)
    requires op.Deregister?
    ensures Surviving(ops + [op], name)[info] ==
            (if info.clientId == op.clientId then 0 else Surviving(ops, name)[info])
  {
    if ops == [] {
      assert ops + [op] == [op];
    } else {
      assert (ops + [op])[1..] == ops[1..] + [op];
      SurvivingDeregister(ops[1..], op, name, info);
    }
  }

  lemma InsertedMultiset(infos: seq<ApiInfo>, info: ApiInfo, infos': seq<ApiInfo>)
    requires InsertedInto(infos, info, infos')
    ensures multiset(infos') == multiset(infos) + multiset{info}
  {
    var index :| BinarySearchAnswer(infos, info.priority, index)
                 && infos' == infos[..index] + [info] + infos[index..];
    assert infos == infos[..index] + infos[index..];
  }

  /** After any history of registrations and deregistrations, whichever answers the binary
      searches gave: every list is non-empty and sorted, and the list of a name holds exactly
      the surviving registrations. */
  lemma {:induction false} TableHoldsSurvivors(ops: seq<Op>, t: Table, name: string)
    requires Produces(ops, t)
    ensures WellFormed(t)
    ensures multiset(Infos(t, name)) == Surviving(ops, name)
    decreases |ops|
  {
    if ops != [] {
      var before, op := DropLast(ops), LastOf(ops);
      var t0 :| Produces(before, t0) && OpStep(t0, op, t);
      TableHoldsSurvivors(before, t0, name);
      assert ops == before + [op];
      OpKeepsSurvivors(before, op, t0, t, name);
    }
  }

  lemma OpKeepsSurvivors(before: seq<Op>, op: Op, t0: Table, t: Table, name: string)
    requires WellFormed(t0) && OpStep(t0, op, t)
    requires multiset(Infos(t0, name)) == Surviving(before, name)
    ensures WellFormed(t)
    ensures multiset(Infos(t, name)) == Surviving(before + [op], name)
  {
    match op
    case Register(n, info) =>
      RegisterKeepsWellFormed(t0, n, info, t);
      RegisteredCounts(before, op, t0, t, name);
    case Deregister(clientId) =>
      DeregisterKeepsWellFormed(t0, clientId);
      DeregisteredCounts(before, op, t0, name);
  }

  lemma RegisteredCounts(before: seq<Op>, op: Op, t0: Table, t: Table, name: string)
    requires op.Register? && Registered(t0, op.name, op.info, t)
    requires multiset(Infos(t0, name)) == Surviving(before, name)
    ensures multiset(Infos(t, name)) == Surviving(before + [op], name)
  {
    InsertedMultiset(Infos(t0, op.name), op.info, t[op.name]);
    SurvivingRegister(before, op, name);
    if op.name != name {
      assert Infos(t, name) == Infos(t0, name);
    }
  }

  lemma DeregisteredCounts(before: seq<Op>, op: Op, t0: Table, name: string)
    requires op.Deregister? && multiset(Infos(t0, name)) == Surviving(before, name)
    ensures multiset(Infos(Deregistered(t0, op.clientId), name)) == Surviving(before + [op], name)
  {
    var infos := Infos(t0, name);
    assert Infos(Deregistered(t0, op.clientId), name) == Retained(infos, op.clientId);
    forall info
      ensures multiset(Retained(infos, op.clientId))[info] == Surviving(before + [op], name)[info]
    {
      RetainedCounts(infos, op.clientId, info);
      SurvivingDeregister(before, op, name, info);
    }
  }

  /** A name is in the table exactly when one of its registrations survives. */
  lemma NameHasSurvivors(ops: seq<Op>, t: Table, name: string)
    requires Produces(ops, t)
    ensures name in t <==> Surviving(ops, name) != multiset{}
  {
    TableHoldsSurvivors(ops, t, name);
    if name in t {
      assert t[name][0] in multiset(t[name]);
    }
  }

  /** `get_first` answers exactly when some registration survives, and then with one whose
      priority number no survivor beats. */
  lemma GetFirstIsLeast(ops: seq<Op>, t: Table, name: string)
    requires Produces(ops, t)
    ensures GetFirst(t, name).Some? <==> Surviving(ops, name) != multiset{}
    ensures GetFirst(t, name).Some? ==>
              && GetFirst(t, name).value in Surviving(ops, name)
              && forall info :: info in Surviving(ops, name) ==> GetFirst(t, name).value.priority <= info.priority
  {
    TableHoldsSurvivors(ops, t, name);
    NameHasSurvivors(ops, t, name);
    if name in t {
      forall info | info in Surviving(ops, name)
        ensures t[name][0].priority <= info.priority
      {
        assert info in t[name];
      }
    }
  }

  // ---------- get_next ----------

  /** Position of the client's first entry, or the length when it has none. */
  function FirstIndex(infos: seq<ApiInfo>, clientId: ClientId): (i: nat)
    ensures i <= |infos|
    ensures i < |infos| ==> infos[i].clientId == clientId
    ensures forall j :: 0 <= j < i ==> infos[j].clientId != clientId
  {
    if infos == [] || infos[0].clientId == clientId then 0 else 1 + FirstIndex(infos[1..], clientId)
  }

  lemma {:induction false} SkipWhileNotDrops(infos: seq<ApiInfo>, clientId: ClientId)
    ensures SkipWhileNot(infos, clientId) == infos[FirstIndex(infos, clientId)..]
  {
    if infos != [] && infos[0].clientId != clientId {
      SkipWhileNotDrops(infos[1..], clientId);
    }
  }

  /** `get_next` answers the entry right behind the client's first one, and nothing when that
      is the last entry or the client has none. */
  lemma GetNextFollowsFirst(t: Table, name: string, clientId: ClientId)
    ensures var infos := Infos(t, name);
            var i := FirstIndex(infos, clientId);
            GetNext(t, name, clientId) == if i + 1 < |infos| then Some(infos[i + 1]) else None
  {
    SkipWhileNotDrops(Infos(t, name), clientId);
  }
}
