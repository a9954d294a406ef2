/**
  * The roster rules shared by the expedition detail page and the gameplay
  * page: who is active, who may still join, and the updates that add,
  * remove, deactivate and reactivate a participant.
  */
module Roster {
  import opened Types
  import opened Seqs

  predicate IsActive(p: Participacion) {
    p.activo
  }

  /** `participants.filter((p) => p.activo)`. */
  function ActiveParticipants(parts: seq<Participacion>): (r: seq<Participacion>)
    ensures forall p :: p in r <==> p in parts && p.activo
    ensures Subsequence(r, parts)
  {
    Filter(parts, IsActive)
  }

  /** Some participant plays as the user `uid`. */
  predicate Enrolled(parts: seq<Participacion>, uid: string) {
    exists k :: 0 <= k < |parts| && parts[k].usuarioId == uid
  }

  /** `users.filter((u) => !participants.some((p) => p.usuario_id === u.discord_id))`. */
  function AvailableUsers(users: seq<User>, parts: seq<Participacion>): (r: seq<User>)
    ensures forall u :: u in r <==> u in users && !Enrolled(parts, u.discordId)
    ensures Subsequence(r, users)
  {
    Filter(users, (u: User) => !Enrolled(parts, u.discordId))
  }

  /** Once a participant is appended, its user is no longer offered, and nobody becomes available. */
  lemma AddedUserNotAvailable(users: seq<User>, parts: seq<Participacion>, added: Participacion)
    ensures forall u :: u in AvailableUsers(users, parts + [added]) ==> u.discordId != added.usuarioId
    ensures forall u :: u in AvailableUsers(users, parts + [added]) ==> u in AvailableUsers(users, parts)
  {
    var extended := parts + [added];
    assert extended[|parts|] == added;
    forall uid | Enrolled(parts, uid)
      ensures Enrolled(extended, uid)
    {
      var k :| 0 <= k < |parts| && parts[k].usuarioId == uid;
      assert extended[k] == parts[k];
    }
  }

  /** `participants.filter((p) => p.id !== id)`: exactly the entries with that id are dropped. */
  function RemoveParticipant(parts: seq<Participacion>, id: int): (r: seq<Participacion>)
    ensures forall p :: p in r <==> p in parts && p.id != id
    ensures forall p :: p in parts && p.id != id ==> multiset(r)[p] == multiset(parts)[p]
    ensures Subsequence(r, parts)
  {
    FilterMultiset(parts, (p: Participacion) => p.id != id);
    Filter(parts, (p: Participacion) => p.id != id)
  }

  /**
    * `participants.map((p) => p.id === id ? { ...p, activo: flag } : p)`:
    * the participant with that id gets the flag, every other entry is kept.
    */
  function SetActivo(parts: seq<Participacion>, id: int, flag: bool): (r: seq<Participacion>)
    ensures |r| == |parts|
    ensures forall k :: 0 <= k < |parts| ==> r[k] == if parts[k].id == id then parts[k].(activo := flag) else parts[k]
  {
    seq(|parts|, k requires 0 <= k < |parts| => if parts[k].id == id then parts[k].(activo := flag) else parts[k])
  }

  /** Only the flag changes: ids, names, gold and order stay, and the flag of every other participant stays. */
  lemma SetActivoOnlyFlag(parts: seq<Participacion>, id: int, flag: bool)
    ensures forall k :: 0 <= k < |parts| ==> SetActivo(parts, id, flag)[k].(activo := parts[k].activo) == parts[k]
    ensures forall k :: 0 <= k < |parts| && parts[k].id == id ==> SetActivo(parts, id, flag)[k].activo == flag
    ensures forall k :: 0 <= k < |parts| && parts[k].id != id ==> SetActivo(parts, id, flag)[k].activo == parts[k].activo
  {
  }

  /** Deactivating a player and reactivating them restores the roster, when they were active. */
  lemma DeactivateReactivate(parts: seq<Participacion>, id: int)
    requires forall k :: 0 <= k < |parts| && parts[k].id == id ==> parts[k].activo
    ensures SetActivo(SetActivo(parts, id, false), id, true) == parts
  {
  }

  /** After deactivation the player is no longer among the active participants, and nobody else left them. */
  lemma DeactivatedNotActive(parts: seq<Participacion>, id: int)
    ensures forall p :: p in ActiveParticipants(SetActivo(parts, id, false)) ==> p.id != id
    ensures forall p :: p in ActiveParticipants(parts) && p.id != id ==> p in ActiveParticipants(SetActivo(parts, id, false))
  {
    var r := SetActivo(parts, id, false);
    forall p | p in ActiveParticipants(parts) && p.id != id
      ensures p in r
    {
      var k :| 0 <= k < |parts| && parts[k] == p;
      assert r[k] == p;
    }
  }
}
