/** The handlers of app/controller/foodController.js. */
module FoodController {
  import opened Wrappers
  import opened JsStrings
  import opened JsNumbers
  import opened QueryBuilder
  import opened Messages
  import opened Envelope
  import opened DogSchema
  import opened FoodSchema
  import opened Database

  /** The query-string values `getAllFood` reads. */
  datatype FoodQuery = FoodQuery(
    foodtype: Option<string>,
    flavor: Option<string>,
    minCost: Option<string>,
    maxCost: Option<string>,
    excludeFields: Option<string>,
    sortBy: Option<string>,
    page: Option<string>,
    limit: Option<string>)

  /** The Mongo filter `getAllFood` builds: `$in` lists on foodtype and flavor, a range on cost. */
  datatype FoodFilter = FoodFilter(foodtype: Option<seq<string>>, flavor: Option<seq<string>>, cost: Option<Range<real>>)

  const NoFoodFilter: FoodFilter := FoodFilter(None, None, None)
  const DefaultFoodSort: string := "foodtype"

  /** The filter as a value: foodtype and flavor constrained when given, cost bounded by the
      `parseFloat` of whichever of minCost and maxCost is given. */
  function FoodFilterOf(q: FoodQuery): FoodFilter
  {
    FoodFilter(MembershipConstraint(q.foodtype), MembershipConstraint(q.flavor), RangeConstraint(q.minCost, q.maxCost, ParseFloat))
  }

  /** The filter object built field by field as the handler does. */
  method BuildFoodFilter(q: FoodQuery) returns (filter: FoodFilter)
    ensures filter == FoodFilterOf(q)
    ensures filter.foodtype.Some? <==> Given(q.foodtype)
    ensures filter.flavor.Some? <==> Given(q.flavor)
    ensures filter.cost.Some? <==> Given(q.minCost) || Given(q.maxCost)
    ensures filter.cost.Some? ==>
              && (filter.cost.value.gte.Some? <==> Given(q.minCost))
              && (filter.cost.value.lte.Some? <==> Given(q.maxCost))
  {
    filter := NoFoodFilter;
    if Given(q.foodtype) {
      filter := filter.(foodtype := Some(Split(q.foodtype.value, ',')));
    }
    if Given(q.flavor) {
      filter := filter.(flavor := Some(Split(q.flavor.value, ',')));
    }
    if Given(q.minCost) || Given(q.maxCost) {
      filter := filter.(cost := Some(Range(None, None)));
    }
    if Given(q.minCost) {
      filter := filter.(cost := Some(filter.cost.value.(gte := Some(ParseFloat(q.minCost.value)))));
    }
    if Given(q.maxCost) {
      filter := filter.(cost := Some(filter.cost.value.(lte := Some(ParseFloat(q.maxCost.value)))));
    }
  }

  /** The full list query: filter, projection, sort key (default "foodtype") and page window.
      With no parameter at all it is the empty filter, projection "-__v", sort "foodtype",
      page 1 of size 10 skipping nothing. */
  function FoodListQuery(q: FoodQuery): (spec: QuerySpec<FoodFilter>)
    ensures spec.filter == FoodFilterOf(q)
    ensures spec.page == PageOf(q.page, q.limit) && spec.projection == SelectFields(q.excludeFields)
    ensures spec.sort == (if Given(q.sortBy) then q.sortBy.value else DefaultFoodSort)
    ensures q == FoodQuery(None, None, None, None, None, None, None, None) ==>
              spec == QuerySpec(NoFoodFilter, "-__v", "foodtype", Page(1, 10, 0))
  {
    QuerySpec(FoodFilterOf(q), SelectFields(q.excludeFields), SortKey(q.sortBy, DefaultFoodSort), PageOf(q.page, q.limit))
  }

  /** `GET /food`. The engine that runs the query over the stored food items is `find`;
      `None` stands for a query that throws. On success the count is the number of records
      returned and, unlike the dog list, no page is reported; a failure answers with the
      "food not found" message. */
  method GetAllFood(db: Store, q: FoodQuery, find: (QuerySpec<FoodFilter>, map<Id, Food>) -> Option<seq<Doc<Food>>>)
    returns (r: ListReply<Doc<Food>>)
    ensures r.status == Ok <==> find(FoodListQuery(q), db.foods).Some?
    ensures r.status == Ok ==> && r.message == FoodFound
                               && r.data == find(FoodListQuery(q), db.foods)
                               && r.count == Some(|r.data.value|)
                               && r.page.None?
    ensures r.status != Ok ==> r == ListReply(InternalError, FoodNotFound, None, None, None)
  {
    var filter := BuildFoodFilter(q);
    var pageNumber := IntOr(q.page, DefaultPage);
    var pageSize := IntOr(q.limit, DefaultPageSize);
    var skip := (pageNumber - 1) * pageSize;
    var selectFields := SelectFields(q.excludeFields);
    var sortOptions := SortKey(q.sortBy, DefaultFoodSort);
    var spec := QuerySpec(filter, selectFields, sortOptions, Page(pageNumber, pageSize, skip));
    assert spec == FoodListQuery(q);
    var food := find(spec, db.foods);
    if food.None? {
      return ListReply(InternalError, FoodNotFound, None, None, None);
    }
    r := ListReply(Ok, FoodFound, Some(|food.value|), None, food);
  }

  /** `GET /food/:id`: 400 for a malformed identifier, 404 when no food item has it, the item otherwise. */
  method GetFoodById(db: Store, id: Id) returns (r: Reply<Doc<Food>>)
    ensures !db.IsValidId(id) ==> r == Reply(BadRequest, InvalidId, None)
    ensures db.IsValidId(id) && id !in db.foods ==> r == Reply(NotFound, FoodNotFound, None)
    ensures db.IsValidId(id) && id in db.foods ==> r == Reply(Ok, FoodFound, Some(Doc(id, db.foods[id])))
  {
    if !db.IsValidId(id) {
      return Reply(BadRequest, InvalidId, None);
    }
    if id !in db.foods {
      return Reply(NotFound, FoodNotFound, None);
    }
    r := Reply(Ok, FoodFound, Some(Doc(id, db.foods[id])));
  }

  /** `POST /food`. The `dog` field must be a well-formed identifier (else 400) of an
      existing dog (else 404); in both cases nothing changes. Then the food item is created
      under `newId` (a body the schema rejects, or an identifier in use, is a 500 and again
      nothing changes), its identifier is appended to the dog's `foodList`, and the dog is
      saved. `saveFails` stands for that last write failing: the food item then exists but
      is not linked, and the answer is 500. */
  method CreateFood(db: Store, body: FoodPayload, newId: Id, saveFails: bool) returns (r: Reply<Doc<Food>>)
    requires db.Valid()
    modifies db
    ensures db.Valid()
    ensures body.dog.None? || !db.IsValidId(body.dog.value) ==>
              r == Reply(BadRequest, InvalidId, None) && db.dogs == old(db.dogs) && db.foods == old(db.foods)
    ensures body.dog.Some? && db.IsValidId(body.dog.value) && body.dog.value !in old(db.dogs) ==>
              r == Reply(NotFound, DogNotFound, None) && db.dogs == old(db.dogs) && db.foods == old(db.foods)
    ensures body.dog.Some? && db.IsValidId(body.dog.value) && body.dog.value in old(db.dogs) ==>
              var dogId := body.dog.value;
              if CastFood(body).None? || newId in old(db.foods) then
                r == Reply(InternalError, ServerError, None) && db.dogs == old(db.dogs) && db.foods == old(db.foods)
              else
                && db.foods == old(db.foods)[newId := CastFood(body).value]
                && |db.foods| == |old(db.foods)| + 1
                && db.foods[newId].dog == dogId
                && (if saveFails then
                      r == Reply(InternalError, ServerError, None) && db.dogs == old(db.dogs)
                    else
                      && r == Reply(Created, FoodCreated, Some(Doc(newId, db.foods[newId])))
                      && db.dogs.Keys == old(db.dogs).Keys
                      && db.dogs[dogId] == old(db.dogs)[dogId].(foodList := old(db.dogs)[dogId].foodList + [newId])
                      && (forall other :: other in old(db.dogs) && other != dogId ==> db.dogs[other] == old(db.dogs)[other]))
  {
    if body.dog.None? || !db.IsValidId(body.dog.value) {
      return Reply(BadRequest, InvalidId, None);
    }
    var dogId := body.dog.value;
    if dogId !in db.dogs {
      return Reply(NotFound, DogNotFound, None);
    }
    var dogExists := db.dogs[dogId];
    var food := CastFood(body);
    if food.None? || newId in db.foods {
      return Reply(InternalError, ServerError, None);
    }
    db.foods := db.foods[newId := food.value];
    dogExists := dogExists.(foodList := dogExists.foodList + [newId]);
    if saveFails {
      return Reply(InternalError, ServerError, None);
    }
    ValidDogAnyFoodList(db.dogs[dogId], dogExists.foodList);
    db.dogs := db.dogs[dogId := dogExists];
    r := Reply(Created, FoodCreated, Some(Doc(newId, food.value)));
  }

  /** `PUT /food/:id`: 400 for a malformed identifier, 404 when no food item has it, 500 when
      the merged item breaks the schema; otherwise the supplied fields replace the stored ones. */
  method UpdateFood(db: Store, id: Id, body: FoodPayload) returns (r: Reply<Doc<Food>>)
    requires db.Valid()
    modifies db
    ensures db.Valid()
    ensures db.dogs == old(db.dogs)
    ensures !db.IsValidId(id) ==> r == Reply(BadRequest, InvalidId, None) && db.foods == old(db.foods)
    ensures db.IsValidId(id) && id !in old(db.foods) ==> r == Reply(NotFound, FoodNotFound, None) && db.foods == old(db.foods)
    ensures db.IsValidId(id) && id in old(db.foods) ==>
              if ValidFoodFields(body) then
                && db.foods == old(db.foods)[id := MergeFood(old(db.foods)[id], body)]
                && r == Reply(Ok, FoodUpdated, Some(Doc(id, db.foods[id])))
              else
                r == Reply(InternalError, ServerError, None) && db.foods == old(db.foods)
  {
    if !db.IsValidId(id) {
      return Reply(BadRequest, InvalidId, None);
    }
    if id !in db.foods {
      return Reply(NotFound, FoodNotFound, None);
    }
    var updated := MergeFood(db.foods[id], body);
    MergeFoodValid(db.foods[id], body);
    if !ValidFood(updated) {
      return Reply(InternalError, ServerError, None);
    }
    db.foods := db.foods[id := updated];
    r := Reply(Ok, FoodUpdated, Some(Doc(id, updated)));
  }

  /** `DELETE /food/:id`: a malformed identifier is answered like a missing one, with 404
      and "food not found"; otherwise the item is removed and returned. No dog's
      `foodList` is touched, so it may keep naming the deleted item. */
  method DeleteFood(db: Store, id: Id) returns (r: Reply<Doc<Food>>)
    requires db.Valid()
    modifies db
    ensures db.Valid()
    ensures db.dogs == old(db.dogs)
    ensures !db.IsValidId(id) || id !in old(db.foods) ==> r == Reply(NotFound, FoodNotFound, None) && db.foods == old(db.foods)
    ensures db.IsValidId(id) && id in old(db.foods) ==>
              && db.foods == old(db.foods) - {id}
              && r == Reply(Ok, FoodDeleted, Some(Doc(id, old(db.foods)[id])))
  {
    if !db.IsValidId(id) {
      return Reply(NotFound, FoodNotFound, None);
    }
    if id !in db.foods {
      return Reply(NotFound, FoodNotFound, None);
    }
    var deleted := db.foods[id];
    db.foods := db.foods - {id};
    r := Reply(Ok, FoodDeleted, Some(Doc(id, deleted)));
  }
}
