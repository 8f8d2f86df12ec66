# Dog and food CRUD service — a Dafny model

The service keeps two collections, dogs and food items, and answers ten HTTP handlers:
list, get, create, update and delete for each. A food item names its dog, and a dog keeps
the ordered list of its food items' identifiers. This project models:

- the **list-query builder** of `getAllDog` and `getAllFood`: optional query-string values
  become a filter (`$in` lists on two categorical fields, a `$gte`/`$lte` range on one
  numeric field), a projection string, a sort key and a page window;
- the **handlers** over an in-memory store of two maps (`Database.Store`), each returning
  the HTTP status, the message and the data of its JSON envelope. This includes
  `createFood`'s check that the dog exists and its link-back step, which appends the new
  item's identifier to that dog's `foodList`;
- the **schemas** of `Dog` and `Food` as predicates (`ValidDog`, `ValidFood`), with the
  `trim` setters, as create (`CastDog`, `CastFood`) and update (`MergeDog`, `MergeFood`)
  apply them;
- the JavaScript primitives the builder relies on: `trim`, `split`, `join`, `parseInt` and
  `parseFloat`.

Layout: `wrappers.dfy` (Option), `js_strings.dfy`, `js_numbers.dfy`, `messages.dfy`,
`envelope.dfy` (identifiers, statuses, reply shapes), `dog_schema.dfy`, `food_schema.dfy`,
`query_builder.dfy` (the part both list handlers share), `database.dfy`,
`dog_controller.dfy`, `food_controller.dfy` and `scenarios.dfy` (request sequences).

Abstractions:
- `mongoose.Types.ObjectId.isValid` is the store's `IsValidId`, a function supplied when
  the store is constructed. The handlers assume nothing about it. The request sequences in
  `scenarios.dfy` assume that the identifier the database assigns a new document passes
  `isValid`.
- The identifier that the database gives a new document is a parameter (`newId`). An
  identifier already in use fails like a duplicate key, with 500.
- Running a list query (`find` … `limit`) is a function parameter `find` of the list
  handlers. It gets the built `QuerySpec` and the collection and gives back the records, or
  `None` when the query throws. `QueryBuilder.Window` states what skip/limit select from
  the records the engine has already filtered and sorted.
- The failure of `dogExists.save()` in `createFood` is the flag `saveFails`.
- The messages are the constants of messages/messages.js. `INVALID_ID` is written twice
  there, and the later value, "No ID Found", is the one in effect.

Behaviour of the code worth noting:
- The list handlers store the raw result of `parseInt`/`parseFloat`. So a bound that does
  not parse still sets `$gte`/`$lte`, to NaN (`Some(None)` here).
- `age` is a schema `Number` with bounds only, so the model keeps it as `real`.
- The food list response has no `page` field. When it fails, its message is "Food not
  found".
- `deleteFood` answers a malformed identifier with 404 and "Food not found", where the
  other handlers that take an identifier answer 400.

## Model

| member | source | states |
|---|---|---|
| `JsStrings.Trim` | app/model/Dog.js:12 | the `trim` setter: the result is the slice of the input left after its leading and trailing white space, with no white space at either end and only white space outside it; a string already trimmed is kept unchanged |
| `JsStrings.TrimIdempotent` | app/model/Food.js:13 | trimming a trimmed value changes nothing |
| `JsStrings.Split` | app/controller/dogController.js:23 | `split(",")`: at least one piece; no piece holds the separator; every character of a piece comes from the input |
| `JsStrings.Join` | app/controller/dogController.js:36 | `.join(sep)`: for a non-empty list, the result is as long as all the parts plus one separator between each pair of neighbours, and it starts with the first part |
| `JsStrings.JoinSplit` | app/controller/dogController.js:23 | joining the pieces of a split with the same separator gives back the input |
| `JsStrings.SplitJoin` | app/controller/dogController.js:36 | splitting a join of separator-free pieces gives back the pieces, in order |
| `JsNumbers.ParseIntRoundTrip` | app/controller/dogController.js:28 | `parseInt` reads back every integer printed in decimal, whatever non-digit text follows it; only after 0 must that text not start with `x` or `X`, which would make a hexadecimal prefix |
| `JsNumbers.ParseInt` | app/controller/dogController.js:28-32 | `parseInt`: after leading white space and an optional sign, the result is a number exactly when a digit follows (a hexadecimal digit after a "0x"/"0X" prefix) and NaN otherwise; a negative result comes only from a leading '-' |
| `JsNumbers.ParseFloat` | app/controller/foodController.js:36-37 | `parseFloat`: after leading white space and an optional sign, the result is a number exactly when a digit, or a point followed by a digit, comes next, and NaN otherwise; a negative result comes only from a leading '-' |
| `JsNumbers.ParseFloatRoundTrip` | app/controller/foodController.js:36 | `parseFloat` reads back every integer printed in decimal, whatever text that cannot continue a number follows it |
| `JsNumbers.ParseFloatDecimal` | app/controller/foodController.js:36-37 | `parseFloat` reads whole digits, a point and fraction digits (such as "10.5") as the whole part plus the fraction over ten to the power of its length, whatever text that cannot continue a number follows |
| `DogSchema.CastDog` | app/model/Dog.js:3-32 | create accepts a body exactly when name, breed, size and age are all present; name is non-empty and at most 20 characters; trimmed breed is non-empty; size is Small, Big, Large or Medium; age is in [1, 20]. The stored dog is valid, keeps the fields as given with breed trimmed, and has food list `[]` when none is supplied |
| `DogSchema.ValidDog` | app/model/Dog.js:3-31 | the definition: name non-empty and at most 20 characters; breed non-empty and stored trimmed; size one of Small, Big, Large, Medium; age in [1, 20]; the food list unconstrained |
| `DogSchema.ValidDogOfFields` | app/model/Dog.js:3-31 | a stored dog is valid exactly when its own fields, sent as a body, pass every field check and its breed is already as the `trim` setter stores it |
| `DogSchema.MergeDog` | app/controller/dogController.js:143-146 | every field the update body supplies replaces the stored one (breed trimmed, as the schema trims it); every field it leaves out keeps its stored value |
| `DogSchema.MergeDogFullBody` | app/controller/dogController.js:143-146 | an update that supplies every field, the food list included, stores exactly the dog create would make of the same body |
| `DogSchema.MergeDogValid` | app/controller/dogController.js:143-146 | an update of a valid dog is valid exactly when every supplied field meets its constraint |
| `DogSchema.MergeDogIdempotent` | app/controller/dogController.js:143-146 | repeating the same update changes nothing further |
| `DogSchema.MergeDogEmpty` | app/controller/dogController.js:143-146 | an empty update body leaves any stored dog unchanged |
| `DogSchema.ValidDogAnyFoodList` | app/model/Dog.js:25-31 | food list entries are not required, so any list (the empty one too) leaves validity as it is |
| `FoodSchema.CastFood` | app/model/Food.js:3-25 | create accepts a body exactly when dog, foodtype, flavor and cost are all present; trimmed foodtype is "wet" or "dry"; trimmed flavor is non-empty; cost is in [1, 60]. The stored item is valid, with foodtype and flavor trimmed |
| `FoodSchema.ValidFood` | app/model/Food.js:3-25 | the definition: foodtype is "wet" or "dry"; flavor non-empty and stored trimmed; cost in [1, 60] |
| `FoodSchema.ValidFoodOfFields` | app/model/Food.js:3-25 | a stored item is valid exactly when its own fields, sent as a body, pass every field check and foodtype and flavor are already as the `trim` setters store them |
| `FoodSchema.MergeFood` | app/controller/foodController.js:157-160 | every field the update body supplies replaces the stored one (foodtype and flavor trimmed, as the schema trims them); every field it leaves out keeps its stored value |
| `FoodSchema.MergeFoodFullBody` | app/controller/foodController.js:157-160 | an update that supplies every field stores exactly the item create would make of the same body |
| `FoodSchema.MergeFoodValid` | app/controller/foodController.js:157-160 | an update of a valid food item is valid exactly when every supplied field meets its constraint |
| `FoodSchema.MergeFoodIdempotent` | app/controller/foodController.js:157-160 | repeating the same update changes nothing further |
| `FoodSchema.MergeFoodFlavorOnly` | app/controller/foodController.js:157-172 | updating only the flavor sets the trimmed new flavor, keeps every other field and keeps the item valid |
| `QueryBuilder.MembershipConstraint` | app/controller/dogController.js:23-25 | a categorical field is constrained exactly when its parameter is present and non-empty; the `$in` list is the comma-split of the parameter, and joining it with commas gives the parameter back |
| `QueryBuilder.RangeConstraint` | app/controller/dogController.js:27-29 | the range entry exists exactly when a lower or upper bound is given; `$gte` is set exactly when the lower bound is given, `$lte` exactly when the upper bound is given; each holds the parse of its parameter |
| `QueryBuilder.IntOr` | app/controller/dogController.js:31-32 | `parseInt(v) \|\| d` is never 0 for non-zero `d`; it is the parsed integer when that is a non-zero number, and otherwise it is `d` |
| `QueryBuilder.PageOf` | app/controller/dogController.js:31-33 | page and size fall back to 1 and 10 and are never 0; skip is (page − 1) × size; for positive page and size, skip is non-negative and the next page starts where this one ends |
| `QueryBuilder.IntOrPrinted` | app/controller/foodController.js:39-40 | a non-zero integer given in decimal overrides the default |
| `QueryBuilder.PageOfPrinted` | app/controller/dogController.js:31-33 | `page=n&limit=k` yields page n of size k, skipping (n − 1) × k records |
| `QueryBuilder.DashJoin` | app/controller/dogController.js:36 | `"-" + names.join(" -")` equals the names, each prefixed by '-', joined by single spaces |
| `QueryBuilder.ExcludedSplit` | app/controller/foodController.js:43-45 | when the names contain no space, splitting the projection at spaces gives back the prefixed names |
| `QueryBuilder.SelectFields` | app/controller/dogController.js:35-37 | with `excludeFields` given, every listed name gets a '-', in order, joined by single spaces (and, without spaces in the names, splits back into exactly those tokens); otherwise the projection is "-__v" |
| `QueryBuilder.SortKey` | app/controller/dogController.js:39 | `sortBy \|\| fallback`: the given key when `sortBy` is present and non-empty, else the fallback ("name" here, "foodtype" at foodController.js:48); never empty |
| `QueryBuilder.Window` | app/controller/dogController.js:48-49 | skip/limit returns at most `limit` consecutive records starting at `skip`, and fewer only when the records run out |
| `QueryBuilder.PagesTile` | app/controller/foodController.js:53-55 | pages 1..n together are exactly the first n × size records: no gap and no repeat |
| `DogController.BuildDogFilter` | app/controller/dogController.js:21-29 | the filter built step by step equals `DogFilterOf`: breed/size constrained iff given; an age entry iff minAge or maxAge is given, with `$gte`/`$lte` set independently |
| `DogController.DogListQuery` | app/controller/dogController.js:21-39 | the filter is the one `BuildDogFilter` builds, the projection and page come from `SelectFields` and `PageOf`, and a given `sortBy` is the sort key, "name" otherwise. With no parameters: empty filter, projection "-__v", sort "name", page 1, size 10, skip 0 |
| `DogController.GetAllDog` | app/controller/dogController.js:44-65 | 200 exactly when the query runs. Then `count` is the number of returned records and `page` is the page number used. Otherwise 500 with the server-error message |
| `DogController.GetDogById` | app/controller/dogController.js:69-104 | malformed id gives 400; well-formed but unknown id gives 404; otherwise 200 with the stored dog |
| `DogController.DogData` | app/controller/dogController.js:110-113 | the spread replaces an absent food list with `[]` and keeps every other field as given |
| `DogController.CreateDog` | app/controller/dogController.js:107-130 | 201 exactly when the schema accepts the body and the new id is free. Then exactly that dog is added, with the supplied or empty food list. Otherwise 500 and nothing changes. Food items are never touched |
| `DogController.UpdateDog` | app/controller/dogController.js:133-168 | 400 or 404 leave the store as it was. For an existing dog: the merged dog is stored with 200 when every supplied field is acceptable, else 500 and no change |
| `DogController.DeleteDog` | app/controller/dogController.js:171-203 | 400 or 404 leave the store as it was. Otherwise only that dog is removed and returned; food items are untouched (no cascade) |
| `FoodController.BuildFoodFilter` | app/controller/foodController.js:28-37 | the filter built step by step equals `FoodFilterOf`: foodtype/flavor constrained iff given; a cost entry iff minCost or maxCost is given, with `$gte`/`$lte` set independently |
| `FoodController.FoodListQuery` | app/controller/foodController.js:28-48 | the filter is the one `BuildFoodFilter` builds, the projection and page come from `SelectFields` and `PageOf`, and a given `sortBy` is the sort key, "foodtype" otherwise. With no parameters: empty filter, projection "-__v", sort "foodtype", page 1, size 10, skip 0 |
| `FoodController.GetAllFood` | app/controller/foodController.js:50-70 | 200 exactly when the query runs. Then `count` is the number of returned records and there is no `page`. Otherwise 500 with "Food not found" |
| `FoodController.GetFoodById` | app/controller/foodController.js:74-107 | malformed id gives 400; well-formed but unknown id gives 404; otherwise 200 with the stored item |
| `FoodController.CreateFood` | app/controller/foodController.js:110-144 | malformed dog id gives 400 and unknown dog gives 404, with nothing changed. A rejected body or a taken id gives 500 with nothing changed. Otherwise exactly one item is added, referencing the dog, and its id is appended to the end of that dog's `foodList`; every other dog and the earlier entries stay as they were, and the reply is 201. A failed save leaves the item added, the dog unchanged, and answers 500 |
| `FoodController.UpdateFood` | app/controller/foodController.js:147-181 | 400 or 404 leave the store as it was. For an existing item: the merged item is stored with 200 when every supplied field is acceptable, else 500 and no change. Dogs are never touched |
| `FoodController.DeleteFood` | app/controller/foodController.js:184-215 | a malformed or unknown id gives 404 "Food not found" and no change. Otherwise only that item is removed; every dog's `foodList` is left as it was |
| `Scenarios.CreateThenGetDog` | app/controller/dogController.js:110-117 | after a successful create, getting the new id returns the created dog, with the supplied or empty food list |
| `Scenarios.CreateFoodThenGetDog` | app/controller/foodController.js:127-136 | the dog is fetched exactly when the food create succeeds, and then its `foodList` ends with the new item's id |
| `Scenarios.UpdateFlavorThenGet` | app/controller/foodController.js:157-172 | for any flavor whose trim is non-empty, a get after a flavor-only update returns the trimmed flavor and every other field unchanged |

## Left out

- Express routing, server start-up, the database connection and logging: they are I/O with no logic. The handler names match the routes.
- MongoDB query execution (filter matching, sort order, collation, `populate` of the related records and the nested projections): the list handlers pass it in as `find`, and single-record reads return the stored record unprojected.
- Query-string values that are arrays or objects (a repeated `breed=a&breed=b`, say): not modelled, query parameters are single strings here. In the source the handler's own `split` throws on such a value, and `parseInt` reads a repeated `page` as the comma-joined string.
- Casting by Mongoose: body values of the wrong JSON type, `null` fields, and reference values that do not cast to an ObjectId. Payload fields are typed options.
- Update validators: the model looks the record up first (404) and then validates the merged record (500). Mongoose runs update validators before the database call, so an unacceptable body for an unknown id answers 500 there and 404 here.
- Database failures in the single-record handlers: in the source, `GetDogById`, `CreateDog`, `UpdateDog`, `DeleteDog`, `GetFoodById`, `CreateFood`, `UpdateFood` and `DeleteFood` answer 500 with "No server found" when `findById`, `create`, `findByIdAndUpdate` or `findByIdAndDelete` throws. The model's store does not fail there. These handlers answer 500 only for a rejected body or a taken identifier, and `CreateFood` also for a failed save. Only the list handlers' `find` and that save can fail.
- Concurrency: handlers run one at a time. Interleaving two `createFood` requests for the same dog (between its read and its save) is not modelled.
- Error texts (`error.message`) and the JSON serialisation of the envelope.
- JsNumbers.ParseFloat: the literal `Infinity` is not recognised, and values are exact rationals rather than doubles. JsNumbers.ParseInt: values are unbounded integers, without the precision loss of large doubles.
- QueryBuilder.Window: how the engine treats a negative skip or a negative limit is not modelled; `Window` is stated for non-negative ones.
- DogSchema.ValidDog: `maxlength` counts characters here, not UTF-16 code units.
- NaN: a bound that does not parse is kept as present-but-not-a-number. The model says nothing about which records such a bound matches.
