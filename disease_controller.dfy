/**
 * The disease REST handlers: create, list by plant, get, update and delete
 * over the disease collection, each answering with an HTTP status and a
 * JSON payload. The collection is a map from record id to record; a store
 * failure (what the handlers' `catch` blocks receive) is passed in as
 * `fault`, the message the thrown error carries.
 */
module DiseaseController {

  import opened Wrappers

  /** A document id. Ids are handed out in increasing order. */
  type Id = nat

  /** A JSON scalar in a request body: a string, or absent (`undefined`). */
  datatype Value = Str(text: string) | Undefined

  /** The `fertilizers` member of a request body: an array, or anything else (a lone value, or absent). */
  datatype FertilizerInput = List(items: seq<Value>) | Scalar(item: Value)

  /** The fields of a disease that a create or update request carries. */
  datatype DiseaseBody = DiseaseBody(
    imageUrl: string,
    name: string,
    causalAgent: string,
    diseaseTransmission: string,
    diseaseSymptoms: string,
    control: string,
    fertilizers: FertilizerInput)

  /** A stored disease document. */
  datatype Disease = Disease(
    id: Id,
    imageUrl: string,
    name: string,
    causalAgent: string,
    diseaseTransmission: string,
    diseaseSymptoms: string,
    control: string,
    fertilizers: seq<Value>,
    plantId: Id)

  datatype Payload = Record(disease: Disease) | Records(diseases: seq<Disease>) | Message(text: string)

  datatype Response = Response(status: int, body: Payload)

  const NotFound := Response(404, Message("Disease not found"))

  function ServerError(message: string): Response
  {
    Response(500, Message(message))
  }

  /** `Array.isArray(f) ? f : [f]`: an array is kept, anything else becomes a one-element array. */
  function Normalize(f: FertilizerInput): (r: seq<Value>)
    ensures f.List? ==> r == f.items
    ensures f.Scalar? ==> |r| == 1 && r[0] == f.item
  {
    match f
    case List(items) => items
    case Scalar(v) => [v]
  }

  /** Normalizing an already normalized list changes nothing. */
  lemma NormalizeIdempotent(f: FertilizerInput)
    ensures Normalize(List(Normalize(f))) == Normalize(f)
  {
  }

  /** A missing `fertilizers` member is normalized to `[undefined]`. */
  lemma NormalizeMissing()
    ensures Normalize(Scalar(Undefined)) == [Undefined]
  {
  }

  /** The document a create request builds. */
  function NewDisease(id: Id, body: DiseaseBody, plantId: Id): (d: Disease)
    ensures Carries(d, body)
    ensures d.id == id && d.plantId == plantId
  {
    Disease(id, body.imageUrl, body.name, body.causalAgent, body.diseaseTransmission,
            body.diseaseSymptoms, body.control, Normalize(body.fertilizers), plantId)
  }

  /** The document after an update request: the seven listed fields replaced, id and plantId kept. */
  function Revised(d: Disease, body: DiseaseBody): (r: Disease)
    ensures Carries(r, body)
    ensures r.id == d.id && r.plantId == d.plantId
  {
    d.(imageUrl := body.imageUrl, name := body.name, causalAgent := body.causalAgent,
       diseaseTransmission := body.diseaseTransmission, diseaseSymptoms := body.diseaseSymptoms,
       control := body.control, fertilizers := Normalize(body.fertilizers))
  }

  /** The fields a request supplied are the fields the document holds. */
  predicate Carries(d: Disease, body: DiseaseBody)
  {
    && d.imageUrl == body.imageUrl && d.name == body.name && d.causalAgent == body.causalAgent
    && d.diseaseTransmission == body.diseaseTransmission && d.diseaseSymptoms == body.diseaseSymptoms
    && d.control == body.control && d.fertilizers == Normalize(body.fertilizers)
  }

  /** Updating twice with the same request is the same as updating once. */
  lemma RevisedIdempotent(d: Disease, body: DiseaseBody)
    ensures Revised(Revised(d, body), body) == Revised(d, body)
  {
  }

  class DiseaseStore {
    /** The disease collection. */
    var records: map<Id, Disease>
    /** The next id to hand out. */
    var nextId: Id

    /** Every document sits under its own id, and every id in use was handed out earlier. */
    ghost predicate Valid()
      reads this
    {
      forall k :: k in records ==> k < nextId && records[k].id == k
    }

    constructor ()
      ensures Valid() && records == map[]
    {
      records := map[];
      nextId := 0;
    }

    /** `POST /api/diseases`: store a new document and answer 201 with it. */
    method Create(body: DiseaseBody, plantId: Id, fault: Option<string>) returns (resp: Response)
      requires Valid()
      modifies this
      ensures Valid()
      ensures fault.Some? ==> resp == ServerError(fault.value) && records == old(records)
      ensures fault.None? ==>
                && var d := NewDisease(old(nextId), body, plantId);
                && d.id !in old(records)
                && records == old(records)[d.id := d]
                && resp == Response(201, Record(d))
                && Carries(d, body) && d.plantId == plantId
    {
      if fault.Some? {
        return ServerError(fault.value);
      }
      var d := NewDisease(nextId, body, plantId);
      records := records[nextId := d];
      nextId := nextId + 1;
      resp := Response(201, Record(d));
    }

    /**
     * `Disease.find({ plantId })`: every document of the plant, in the
     * order the ids were handed out.
     */
    method FindByPlant(plantId: Id) returns (found: seq<Disease>)
      requires Valid()
      ensures forall d :: d in found ==> d.id in records && records[d.id] == d && d.plantId == plantId
      ensures forall k :: k in records && records[k].plantId == plantId ==> records[k] in found
      ensures forall i, j :: 0 <= i < j < |found| ==> found[i].id < found[j].id
    {
      found := [];
      var i := 0;
      while i < nextId
        invariant 0 <= i <= nextId
        invariant forall d :: d in found ==> d.id in records && records[d.id] == d && d.plantId == plantId && d.id < i
        invariant forall k :: k in records && k < i && records[k].plantId == plantId ==> records[k] in found
        invariant forall a, b :: 0 <= a < b < |found| ==> found[a].id < found[b].id
      {
        if i in records && records[i].plantId == plantId {
          found := found + [records[i]];
        }
        i := i + 1;
      }
    }

    /** `GET /api/diseases/plant/:plantId`: 200 with the plant's documents, an empty list included. */
    method GetByPlantId(plantId: Id, fault: Option<string>) returns (resp: Response)
      requires Valid()
      ensures fault.Some? ==> resp == ServerError(fault.value)
      ensures fault.None? ==> resp.status == 200 && resp.body.Records?
      ensures fault.None? ==> forall d :: d in resp.body.diseases <==> d.id in records && records[d.id] == d && d.plantId == plantId
    {
      if fault.Some? {
        return ServerError(fault.value);
      }
      var found := FindByPlant(plantId);
      resp := Response(200, Records(found));
    }

    /** `GET /api/diseases/:id`: 200 with the document, or 404 when there is none. */
    method GetById(id: Id, fault: Option<string>) returns (resp: Response)
      ensures fault.Some? ==> resp == ServerError(fault.value)
      ensures fault.None? && id in records ==> resp == Response(200, Record(records[id]))
      ensures fault.None? && id !in records ==> resp == NotFound
    {
      if fault.Some? {
        return ServerError(fault.value);
      }
      if id !in records {
        return NotFound;
      }
      resp := Response(200, Record(records[id]));
    }

    /**
     * `PUT /api/diseases/:id`: replace the seven listed fields and answer
     * 200 with the document as it is afterwards, or 404 when there is none.
     */
    method Update(id: Id, body: DiseaseBody, fault: Option<string>) returns (resp: Response)
      requires Valid()
      modifies this`records
      ensures Valid()
      ensures fault.Some? ==> resp == ServerError(fault.value) && records == old(records)
      ensures fault.None? && id !in old(records) ==> resp == NotFound && records == old(records)
      ensures fault.None? && id in old(records) ==>
                && records == old(records)[id := Revised(old(records)[id], body)]
                && resp == Response(200, Record(records[id]))
                && Carries(records[id], body)
                && records[id].plantId == old(records)[id].plantId
      ensures forall k :: k in old(records) && k != id ==> k in records && records[k] == old(records)[k]
    {
      if fault.Some? {
        return ServerError(fault.value);
      }
      if id !in records {
        return NotFound;
      }
      var d := Revised(records[id], body);
      records := records[id := d];
      resp := Response(200, Record(d));
    }

    /** `DELETE /api/diseases/:id`: remove the document, or answer 404 when there is none. */
    method Delete(id: Id, fault: Option<string>) returns (resp: Response)
      requires Valid()
      modifies this`records
      ensures Valid()
      ensures fault.Some? ==> resp == ServerError(fault.value) && records == old(records)
      ensures fault.None? && id !in old(records) ==> resp == NotFound && records == old(records)
      ensures fault.None? && id in old(records) ==>
                resp == Response(200, Message("Disease deleted")) && records == old(records) - {id}
      ensures id !in records || fault.Some?
      ensures forall k :: k in old(records) && k != id ==> k in records && records[k] == old(records)[k]
    {
      if fault.Some? {
        return ServerError(fault.value);
      }
      if id !in records {
        return NotFound;
      }
      records := records - {id};
      resp := Response(200, Message("Disease deleted"));
    }
  }

  /** A document read back right after it was created equals the created one. */
  method CreateThenGet(store: DiseaseStore, body: DiseaseBody, plantId: Id)
    returns (created: Response, read: Response)
    requires store.Valid()
    modifies store
    ensures created.status == 201 && created.body.Record?
    ensures read == Response(200, created.body)
    ensures Carries(read.body.disease, body) && read.body.disease.plantId == plantId
  {
    created := store.Create(body, plantId, None);
    read := store.GetById(created.body.disease.id, None);
  }

  /** Once a document is deleted, reading it answers 404. */
  method DeleteThenGet(store: DiseaseStore, id: Id) returns (deleted: Response, read: Response)
    requires store.Valid()
    modifies store
    ensures read == NotFound
    ensures deleted.status == 200 || deleted == NotFound
  {
    deleted := store.Delete(id, None);
    read := store.GetById(id, None);
  }

  /**
   * Listing a plant's diseases finds the one just created for it, and a
   * document created for another plant is not listed.
   */
  method CreateThenList(store: DiseaseStore, body: DiseaseBody, plantId: Id)
    returns (created: Response, listed: Response)
    requires store.Valid()
    modifies store
    ensures created.status == 201 && created.body.Record?
    ensures listed.status == 200 && listed.body.Records?
    ensures created.body.disease in listed.body.diseases
    ensures forall d :: d in listed.body.diseases ==> d.plantId == plantId
  {
    created := store.Create(body, plantId, None);
    listed := store.GetByPlantId(plantId, None);
  }
}
