/** The document store the core talks to, reduced to the two collections it uses:
    `partidas` (game records, keyed by id, listed in store order) and, per game id,
    the `equipos` sub-collection of team documents (listed in store order). Every
    operation is one atomic step. Document ids are handed out by a counter, so an id is
    never reused; the real store draws random ids instead. */
module DocStore {
  import opened Wrappers
  import opened Js

  /** A field value as the store returns it; team documents are read without a schema. */
  datatype Value = Str(s: string) | Num(n: int) | Bool(b: bool) | Null

  type Fields = map<string, Value>

  /** A document of a sub-collection: its id and its fields. */
  datatype Doc = Doc(id: string, data: Fields)

  /** A game record. `board` is `None` when the field was never written. */
  datatype Partida = Partida(board: Option<string>, createdAt: string, status: string)

  /** `id` is an id the counter handed out before it reached `n`. */
  predicate IssuedBelow(id: string, n: nat)
  {
    |id| > 0 && AllDigits(id) && DigitsValue(id) < n
  }

  /** `updateDoc(ref, patch)` applied to every document of `docs` whose id is `id`:
      the patch's fields overwrite, all other fields stay. */
  function UpdateDocs(docs: seq<Doc>, id: string, patch: Fields): (r: seq<Doc>)
    ensures |r| == |docs|
    ensures forall i :: 0 <= i < |docs| ==> r[i].id == docs[i].id
  {
    seq(|docs|, i requires 0 <= i < |docs| => if docs[i].id == id then Doc(id, docs[i].data + patch) else docs[i])
  }

  predicate HasDoc(docs: seq<Doc>, id: string)
  {
    exists i :: 0 <= i < |docs| && docs[i].id == id
  }

  /** Patching the one document with a new id, appended last, changes only it. */
  lemma UpdateAppended(docs: seq<Doc>, d: Doc, patch: Fields)
    requires !HasDoc(docs, d.id)
    ensures UpdateDocs(docs + [d], d.id, patch) == docs + [Doc(d.id, d.data + patch)]
  {
    var updated := UpdateDocs(docs + [d], d.id, patch);
    forall k | 0 <= k < |docs| ensures updated[k] == docs[k] {
      assert (docs + [d])[k] == docs[k];
    }
  }

  /** Every document of a sub-collection has an id the counter handed out before
      `n`, and no two documents share one. */
  predicate TeamIdsValid(docs: seq<Doc>, n: nat)
  {
    && (forall i :: 0 <= i < |docs| ==> IssuedBelow(docs[i].id, n))
    && (forall i, j :: 0 <= i < j < |docs| ==> docs[i].id != docs[j].id)
  }

  /** Valid ids stay valid when the counter moves on, survive an update, and
      extend by a document whose id is new. */
  lemma TeamIdsRaise(docs: seq<Doc>, n: nat)
    requires TeamIdsValid(docs, n)
    ensures TeamIdsValid(docs, n + 1)
  {
  }

  lemma TeamIdsUpdate(docs: seq<Doc>, n: nat, id: string, patch: Fields)
    requires TeamIdsValid(docs, n)
    ensures TeamIdsValid(UpdateDocs(docs, id, patch), n)
  {
  }

  lemma TeamIdsAppend(docs: seq<Doc>, n: nat, d: Doc)
    requires TeamIdsValid(docs, n) && IssuedBelow(d.id, n + 1) && !HasDoc(docs, d.id)
    ensures TeamIdsValid(docs + [d], n + 1)
  {
    assert forall i :: 0 <= i < |docs| ==> (docs + [d])[i] == docs[i];
  }

  class Store {
    var partidas: map<string, Partida>
    var partidaOrder: seq<string>
    var teams: map<string, seq<Doc>>
    var nextId: nat

    ghost predicate Valid()
      reads this
    {
      && (forall id :: id in partidas <==> id in partidaOrder)
      && (forall i, j :: 0 <= i < j < |partidaOrder| ==> partidaOrder[i] != partidaOrder[j])
      && (forall id :: id in partidas ==> IssuedBelow(id, nextId))
      && (forall p :: p in teams ==> TeamIdsValid(teams[p], nextId))
    }

    constructor ()
      ensures Valid()
      ensures partidas == map[] && partidaOrder == [] && teams == map[] && nextId == 0
    {
      partidas, partidaOrder, teams, nextId := map[], [], map[], 0;
    }

    /** The documents of the `equipos` sub-collection of game `partidaId`; a
        sub-collection nothing was written to is empty. */
    function TeamDocs(partidaId: string): seq<Doc>
      reads this
    {
      if partidaId in teams then teams[partidaId] else []
    }

    /** Hands out an id no document of the store has. */
    method NewId() returns (id: string)
      requires Valid()
      modifies this`nextId
      ensures Valid() && nextId == old(nextId) + 1
      ensures id !in partidas
      ensures forall p, i :: p in teams && 0 <= i < |teams[p]| ==> teams[p][i].id != id
      ensures IssuedBelow(id, nextId)
    {
      id := NatToString(nextId);
      NatToStringValue(nextId);
      forall p | p in teams
        ensures TeamIdsValid(teams[p], nextId + 1)
      {
        TeamIdsRaise(teams[p], nextId);
      }
      nextId := nextId + 1;
    }

    /** `addDoc(collection(db, "partidas"), record)`. */
    method AddPartida(record: Partida) returns (id: string)
      requires Valid()
      modifies this
      ensures Valid()
      ensures id !in old(partidas)
      ensures partidas == old(partidas)[id := record]
      ensures partidaOrder == old(partidaOrder) + [id]
      ensures teams == old(teams)
    {
      id := NewId();
      partidas := partidas[id := record];
      partidaOrder := partidaOrder + [id];
    }

    /** `updateDoc(doc(db, "partidas", id), { board })`; fails when there is no such
        record. */
    method UpdatePartidaBoard(id: string, board: string) returns (found: bool)
      requires Valid()
      modifies this`partidas
      ensures Valid()
      ensures found == (id in old(partidas))
      ensures partidas == if found then old(partidas)[id := old(partidas)[id].(board := Some(board))]
                          else old(partidas)
    {
      found := id in partidas;
      if found {
        partidas := partidas[id := partidas[id].(board := Some(board))];
      }
    }

    /** `addDoc(collection(db, "partidas", partidaId, "equipos"), data)`. */
    method AddTeamDoc(partidaId: string, data: Fields) returns (id: string)
      requires Valid()
      modifies this
      ensures Valid()
      ensures !HasDoc(old(TeamDocs(partidaId)), id)
      ensures teams == old(teams)[partidaId := old(TeamDocs(partidaId)) + [Doc(id, data)]]
      ensures partidas == old(partidas) && partidaOrder == old(partidaOrder)
    {
      var docs := TeamDocs(partidaId);
      ghost var n := nextId;
      assert TeamIdsValid(docs, n);
      id := NewId();
      assert !HasDoc(docs, id) by {
        if partidaId in teams {
          assert docs == teams[partidaId];
          assert forall i :: 0 <= i < |docs| ==> docs[i].id != id;
        }
      }
      TeamIdsAppend(docs, n, Doc(id, data));
      teams := teams[partidaId := docs + [Doc(id, data)]];
    }

    /** `updateDoc(doc(db, "partidas", partidaId, "equipos", id), patch)`; fails when
        the sub-collection has no document with that id. */
    method UpdateTeamDoc(partidaId: string, id: string, patch: Fields) returns (found: bool)
      requires Valid()
      modifies this`teams
      ensures Valid()
      ensures found == HasDoc(old(TeamDocs(partidaId)), id)
      ensures teams == if found then old(teams)[partidaId := UpdateDocs(old(TeamDocs(partidaId)), id, patch)]
                       else old(teams)
    {
      var docs := TeamDocs(partidaId);
      found := HasDoc(docs, id);
      if found {
        TeamIdsUpdate(docs, nextId, id, patch);
        teams := teams[partidaId := UpdateDocs(docs, id, patch)];
      }
    }
  }
}
