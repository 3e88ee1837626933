/** The agents tRPC router: every agent (`getMany`), one agent by id or null (`getOne`), and
    `create`, which inserts the input with the owner taken from the session. */
module AgentsRouter {
  import opened Common
  import opened Domain

  /** `getMany`: every agent of the table, whoever owns it. */
  function GetMany(db: Db): (r: seq<Agent>)
    ensures |r| == |db.agents|
    ensures forall i :: 0 <= i < |db.agents| ==> db.agents[i] in r
  {
    db.agents
  }

  /** `getOne`: the first agent with the id, or null when there is none. */
  function GetOne(id: string, db: Db): (r: Option<Agent>)
    ensures r.Some? ==> r.value in db.agents && r.value.id == id
    ensures r.None? <==> forall i :: 0 <= i < |db.agents| ==> db.agents[i].id != id
  {
    FindFirst(db.agents, AgentWith(id))
  }

  /** The validated create input. A `userId` key, if the client sent one, is carried along
      by the spread and then overwritten. */
  datatype AgentInput = AgentInput(name: string, instructions: string, userId: Option<string>)

  /** `create`: the inserted row takes the input's name and instructions, the caller's id
      as owner whatever the input said, and the id and timestamps the database assigns
      (`newId`, `now`); the table grows by exactly that row, which is returned. */
  function Create(input: AgentInput, uid: string, newId: string, now: int, db: Db): (r: (Agent, Db))
    ensures r.0.userId == uid
    ensures r.0.name == input.name && r.0.instructions == input.instructions
    ensures r.0.id == newId
    ensures r.1.meetings == db.meetings
    ensures r.1.agents == db.agents + [r.0]
  {
    var row := Agent(newId, input.name, input.instructions, uid, now, now);
    (row, db.(agents := db.agents + [row]))
  }

  /** `getOne` sees exactly what `getMany` lists: a found agent is listed, and null means no
      listed agent has the id. */
  lemma GetOneAgreesWithGetMany(id: string, db: Db)
    ensures GetOne(id, db).Some? ==> GetOne(id, db).value in GetMany(db)
    ensures GetOne(id, db).None? <==> forall a :: a in GetMany(db) ==> a.id != id
  {
  }

  /** After `create` with a fresh id, `getOne` of that id returns the created row, the rows
      that were there keep their lookups, and `getMany` grows by one. */
  lemma CreateThenGetOne(input: AgentInput, uid: string, newId: string, now: int, db: Db, other: string)
    requires forall i :: 0 <= i < |db.agents| ==> db.agents[i].id != newId
    ensures var (row, db') := Create(input, uid, newId, now, db);
      && GetOne(newId, db') == Some(row)
      && (GetOne(other, db).Some? ==> GetOne(other, db') == GetOne(other, db))
      && |GetMany(db')| == |GetMany(db)| + 1
  {
    var (row, db') := Create(input, uid, newId, now, db);
    if GetOne(other, db).Some? {
      FindFirstPrefix(db.agents, [row], AgentWith(other));
    }
    var f := GetOne(newId, db');
    assert db'.agents[|db.agents|] == row;
  }
}
