/** The revisioned AI configuration of a project: the in-memory repository, which
    says what saving a revision means. */
module AiConfiguration {
  import opened Wrappers

  type ProjectId = string

  datatype Configuration = Configuration(
    projectId: ProjectId, providerId: string, modelId: string, credentialId: string,
    credentialRevision: int, revision: int, updatedBy: string, updatedAt: string)

  datatype Outcome = Created | Updated | Conflict

  datatype Store = Store(current: map<ProjectId, Configuration>, history: map<(ProjectId, int), Configuration>)

  const EMPTY := Store(map[], map[])

  function Revision(store: Store, project: ProjectId): int {
    if project in store.current then store.current[project].revision else 0
  }

  function Put(store: Store, next: Configuration): Store {
    Store(store.current[next.projectId := next], store.history[(next.projectId, next.revision) := next])
  }

  function Save(store: Store, expected: int, next: Configuration): (Store, Outcome) {
    if Revision(store, next.projectId) != expected || next.revision != expected + 1 ||
       (next.projectId, next.revision) in store.history
    then (store, Conflict)
    else (Put(store, next), if next.projectId in store.current then Updated else Created)
  }

  class InMemoryRepository {
    var store: Store

    constructor ()
      ensures store == EMPTY
    {
      store := EMPTY;
    }

    method FindRevision(project: ProjectId, revision: int) returns (r: Option<Configuration>)
      ensures r == if (project, revision) in store.history then Some(store.history[(project, revision)]) else None
    {
      return if (project, revision) in store.history then Some(store.history[(project, revision)]) else None;
    }

    method SaveRevision(expected: int, next: Configuration) returns (r: Outcome)
      modifies this
      ensures (store, r) == Save(old(store), expected, next)
    {
      var existing := if next.projectId in store.current then Some(store.current[next.projectId]) else None;
      if (if existing.Some? then existing.value.revision else 0) != expected {
        return Conflict;
      }
      if next.revision != expected + 1 {
        return Conflict;
      }
      var key := (next.projectId, next.revision);
      if key in store.history {
        return Conflict;
      }
      store := store.(history := store.history[key := next]);
      store := store.(current := store.current[next.projectId := next]);
      return if existing.Some? then Updated else Created;
    }
  }

  // ----- what every store keeps -------------------------------------------------------

  /** A project's history is exactly its revisions 1..n, each under its own key,
      and its current configuration is revision n. */
  ghost predicate Numbered(store: Store, project: ProjectId) {
    var n := Revision(store, project);
    && n >= 0
    && (project in store.current <==> n > 0)
    && (forall r :: (project, r) in store.history <==> 1 <= r <= n)
    && (forall r :: 1 <= r <= n ==>
          store.history[(project, r)].projectId == project && store.history[(project, r)].revision == r)
    && (n > 0 ==> store.current[project] == store.history[(project, n)])
  }

  ghost predicate WellNumbered(store: Store) { forall project :: Numbered(store, project) }

  lemma {:induction false} SaveKeepsNumbers(store: Store, expected: int, next: Configuration)
    requires WellNumbered(store)
    ensures WellNumbered(Save(store, expected, next).0)
  {
    var after := Save(store, expected, next).0;
    assert Numbered(store, next.projectId);
    forall project ensures Numbered(after, project) {
      assert Numbered(store, project);
    }
  }

  /** In a well-numbered store a save is refused for one reason: it does not name
      the current revision and the one after it. */
  lemma {:induction false} SaveRefusedIff(store: Store, expected: int, next: Configuration)
    requires WellNumbered(store)
    ensures Save(store, expected, next).1 == Conflict <==>
            Revision(store, next.projectId) != expected || next.revision != expected + 1
    ensures Save(store, expected, next).1 == Created <==>
            Save(store, expected, next).1 != Conflict && expected == 0
  {
    assert Numbered(store, next.projectId);
  }

  /** Saved revisions are never rewritten. */
  lemma {:induction false} SaveKeepsHistory(store: Store, expected: int, next: Configuration, key: (ProjectId, int))
    requires key in store.history
    ensures key in Save(store, expected, next).0.history && Save(store, expected, next).0.history[key] == store.history[key]
  {
  }
}
