/** The handlers of app/controller/dogController.js. */
module DogController {
  import opened Wrappers
  import opened JsStrings
  import opened JsNumbers
  import opened QueryBuilder
  import opened Messages
  import opened Envelope
  import opened DogSchema
  import opened Database

  /** The query-string values `getAllDog` reads. */
  datatype DogQuery = DogQuery(
    breed: Option<string>,
    size: Option<string>,
    minAge: Option<string>,
    maxAge: Option<string>,
    excludeFields: Option<string>,
    sortBy: Option<string>,
    page: Option<string>,
    limit: Option<string>)

  /** The Mongo filter `getAllDog` builds: `$in` lists on breed and size, a range on age. */
  datatype DogFilter = DogFilter(breed: Option<seq<string>>, size: Option<seq<string>>, age: Option<Range<int>>)

  const NoDogFilter: DogFilter := DogFilter(None, None, None)
  const DefaultDogSort: string := "name"

  /** The filter as a value: breed and size constrained when given, age bounded by the
      `parseInt` of whichever of minAge and maxAge is given. */
  function DogFilterOf(q: DogQuery): DogFilter
  {
    DogFilter(MembershipConstraint(q.breed), MembershipConstraint(q.size), RangeConstraint(q.minAge, q.maxAge, ParseInt))
  }

  /** The filter object built field by field as the handler does. */
  method BuildDogFilter(q: DogQuery) returns (filter: DogFilter)
    ensures filter == DogFilterOf(q)
    ensures filter.breed.Some? <==> Given(q.breed)
    ensures filter.size.Some? <==> Given(q.size)
    ensures filter.age.Some? <==> Given(q.minAge) || Given(q.maxAge)
    ensures filter.age.Some? ==>
              && (filter.age.value.gte.Some? <==> Given(q.minAge))
              && (filter.age.value.lte.Some? <==> Given(q.maxAge))
  {
    filter := NoDogFilter;
    if Given(q.breed) {
      filter := filter.(breed := Some(Split(q.breed.value, ',')));
    }
    if Given(q.size) {
      filter := filter.(size := Some(Split(q.size.value, ',')));
    }
    if Given(q.minAge) || Given(q.maxAge) {
      filter := filter.(age := Some(Range(None, None)));
    }
    if Given(q.minAge) {
      filter := filter.(age := Some(filter.age.value.(gte := Some(ParseInt(q.minAge.value)))));
    }
    if Given(q.maxAge) {
      filter := filter.(age := Some(filter.age.value.(lte := Some(ParseInt(q.maxAge.value)))));
    }
  }

  /** The full list query: filter, projection, sort key (default "name") and page window.
      With no parameter at all it is the empty filter, projection "-__v", sort "name",
      page 1 of size 10 skipping nothing. */
  function DogListQuery(q: DogQuery): (spec: QuerySpec<DogFilter>)
    ensures spec.filter == DogFilterOf(q)
    ensures spec.page == PageOf(q.page, q.limit) && spec.projection == SelectFields(q.excludeFields)
    ensures spec.sort == (if Given(q.sortBy) then q.sortBy.value else DefaultDogSort)
    ensures q == DogQuery(None, None, None, None, None, None, None, None) ==>
              spec == QuerySpec(NoDogFilter, "-__v", "name", Page(1, 10, 0))
  {
    QuerySpec(DogFilterOf(q), SelectFields(q.excludeFields), SortKey(q.sortBy, DefaultDogSort), PageOf(q.page, q.limit))
  }

  /** `GET /dog`. The engine that runs the query over the stored dogs is `find`; `None`
      stands for a query that throws. On success the count is the number of records
      returned and the page is the page number used. */
  method GetAllDog(db: Store, q: DogQuery, find: (QuerySpec<DogFilter>, map<Id, Dog>) -> Option<seq<Doc<Dog>>>)
    returns (r: ListReply<Doc<Dog>>)
    ensures r.status == Ok <==> find(DogListQuery(q), db.dogs).Some?
    ensures r.status == Ok ==> && r.message == DogList
                               && r.data == find(DogListQuery(q), db.dogs)
                               && r.count == Some(|r.data.value|)
                               && r.page == Some(PageOf(q.page, q.limit).number)
    ensures r.status != Ok ==> r == ListReply(InternalError, ServerError, None, None, None)
  {
    var filter := BuildDogFilter(q);
    var pageNumber := IntOr(q.page, DefaultPage);
    var pageSize := IntOr(q.limit, DefaultPageSize);
    var skip := (pageNumber - 1) * pageSize;
    var selectFields := SelectFields(q.excludeFields);
    var sortOptions := SortKey(q.sortBy, DefaultDogSort);
    var spec := QuerySpec(filter, selectFields, sortOptions, Page(pageNumber, pageSize, skip));
    assert spec == DogListQuery(q);
    var dogs := find(spec, db.dogs);
    if dogs.None? {
      return ListReply(InternalError, ServerError, None, None, None);
    }
    r := ListReply(Ok, DogList, Some(|dogs.value|), Some(pageNumber), dogs);
  }

  /** `GET /dog/:id`: 400 for a malformed identifier, 404 when no dog has it, the dog otherwise. */
  method GetDogById(db: Store, id: Id) returns (r: Reply<Doc<Dog>>)
    ensures !db.IsValidId(id) ==> r == Reply(BadRequest, InvalidId, None)
    ensures db.IsValidId(id) && id !in db.dogs ==> r == Reply(NotFound, DogNotFound, None)
    ensures db.IsValidId(id) && id in db.dogs ==> r == Reply(Ok, DogFound, Some(Doc(id, db.dogs[id])))
  {
    if !db.IsValidId(id) {
      return Reply(BadRequest, InvalidId, None);
    }
    if id !in db.dogs {
      return Reply(NotFound, DogNotFound, None);
    }
    r := Reply(Ok, DogFound, Some(Doc(id, db.dogs[id])));
  }

  /** `{ ...req.body, foodList: req.body.foodList || [] }`: the body with an absent food
      list replaced by the empty one and every other field as given. */
  function DogData(body: DogPayload): (data: DogPayload)
    ensures data.foodList == Some(body.foodList.GetOr([]))
    ensures data.(foodList := body.foodList) == body
  {
    body.(foodList := Some(body.foodList.GetOr([])))
  }

  /** `POST /dog`. `newId` is the identifier the database assigns; one already in use is a
      duplicate-key failure. A body the schema rejects is a 500, like any other failure. */
  method CreateDog(db: Store, body: DogPayload, newId: Id) returns (r: Reply<Doc<Dog>>)
    requires db.Valid()
    modifies db
    ensures db.Valid()
    ensures db.foods == old(db.foods)
    ensures r.status == Created <==> CastDog(DogData(body)).Some? && newId !in old(db.dogs)
    ensures r.status == Created ==>
              && db.dogs == old(db.dogs)[newId := CastDog(DogData(body)).value]
              && r == Reply(Created, DogCreated, Some(Doc(newId, db.dogs[newId])))
              && db.dogs[newId].foodList == body.foodList.GetOr([])
    ensures r.status != Created ==> r == Reply(InternalError, ServerError, None) && db.dogs == old(db.dogs)
  {
    var dogData := DogData(body);
    var dog := CastDog(dogData);
    if dog.None? || newId in db.dogs {
      return Reply(InternalError, ServerError, None);
    }
    db.dogs := db.dogs[newId := dog.value];
    r := Reply(Created, DogCreated, Some(Doc(newId, dog.value)));
  }

  /** `PUT /dog/:id`: 400 for a malformed identifier, 404 when no dog has it, 500 when the
      merged dog breaks the schema; otherwise the supplied fields replace the stored ones. */
  method UpdateDog(db: Store, id: Id, body: DogPayload) returns (r: Reply<Doc<Dog>>)
    requires db.Valid()
    modifies db
    ensures db.Valid()
    ensures db.foods == old(db.foods)
    ensures !db.IsValidId(id) ==> r == Reply(BadRequest, InvalidId, None) && db.dogs == old(db.dogs)
    ensures db.IsValidId(id) && id !in old(db.dogs) ==> r == Reply(NotFound, DogNotFound, None) && db.dogs == old(db.dogs)
    ensures db.IsValidId(id) && id in old(db.dogs) ==>
              if ValidDogFields(body) then
                && db.dogs == old(db.dogs)[id := MergeDog(old(db.dogs)[id], body)]
                && r == Reply(Ok, DogUpdated, Some(Doc(id, db.dogs[id])))
              else
                r == Reply(InternalError, ServerError, None) && db.dogs == old(db.dogs)
  {
    if !db.IsValidId(id) {
      return Reply(BadRequest, InvalidId, None);
    }
    if id !in db.dogs {
      return Reply(NotFound, DogNotFound, None);
    }
    var updated := MergeDog(db.dogs[id], body);
    MergeDogValid(db.dogs[id], body);
    if !ValidDog(updated) {
      return Reply(InternalError, ServerError, None);
    }
    db.dogs := db.dogs[id := updated];
    r := Reply(Ok, DogUpdated, Some(Doc(id, updated)));
  }

  /** `DELETE /dog/:id`: 400 for a malformed identifier, 404 when no dog has it; otherwise
      the dog is removed and returned. Food items that name it are left as they are. */
  method DeleteDog(db: Store, id: Id) returns (r: Reply<Doc<Dog>>)
    requires db.Valid()
    modifies db
    ensures db.Valid()
    ensures db.foods == old(db.foods)
    ensures !db.IsValidId(id) ==> r == Reply(BadRequest, InvalidId, None) && db.dogs == old(db.dogs)
    ensures db.IsValidId(id) && id !in old(db.dogs) ==> r == Reply(NotFound, DogNotFound, None) && db.dogs == old(db.dogs)
    ensures db.IsValidId(id) && id in old(db.dogs) ==>
              && db.dogs == old(db.dogs) - {id}
              && r == Reply(Ok, DogDeleted, Some(Doc(id, old(db.dogs)[id])))
  {
    if !db.IsValidId(id) {
      return Reply(BadRequest, InvalidId, None);
    }
    if id !in db.dogs {
      return Reply(NotFound, DogNotFound, None);
    }
    var deleted := db.dogs[id];
    db.dogs := db.dogs - {id};
    r := Reply(Ok, DogDeleted, Some(Doc(id, deleted)));
  }
}
