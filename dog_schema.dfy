/** The Dog schema of app/model/Dog.js: what a stored dog looks like and what the schema
    makes of a request body on create and on update. */
module DogSchema {
  import opened Wrappers
  import opened JsStrings
  import opened Envelope

  const Sizes: seq<string> := ["Small", "Big", "Large", "Medium"]
  const NameMaxLength: nat := 20
  const MinAge: real := 1.0
  const MaxAge: real := 20.0

  /** A stored dog. `age` is a Number in the schema, so it need not be whole;
      `foodList` holds the identifiers of Food documents, in order. */
  datatype Dog = Dog(name: string, breed: string, size: string, age: real, foodList: seq<Id>)

  /** A request body: any field may be missing. */
  datatype DogPayload = DogPayload(
    name: Option<string>,
    breed: Option<string>,
    size: Option<string>,
    age: Option<real>,
    foodList: Option<seq<Id>>)

  /** The schema's constraints on a stored dog: a required string is a non-empty one,
      `name` has at most 20 characters, `breed` is stored trimmed, `size` is one of the
      four sizes and `age` lies in [1, 20]. `foodList` entries are not required, so any
      list (the empty one too) is acceptable. */
  predicate ValidDog(d: Dog) {
    && 0 < |d.name| <= NameMaxLength
    && d.breed != "" && IsTrimmed(d.breed)
    && d.size in Sizes
    && MinAge <= d.age <= MaxAge
  }

  /** What each field supplied in a body must satisfy, checked after the `trim` setter. */
  predicate ValidDogFields(p: DogPayload) {
    && (p.name.Some? ==> 0 < |p.name.value| <= NameMaxLength)
    && (p.breed.Some? ==> Trim(p.breed.value) != "")
    && (p.size.Some? ==> p.size.value in Sizes)
    && (p.age.Some? ==> MinAge <= p.age.value <= MaxAge)
  }

  /** `Dog.create(body)`: the `trim` setter on `breed`, an absent array as the empty one,
      then validation. The document exists exactly when every required field is present
      and every field meets its constraint. */
  function CastDog(p: DogPayload): (r: Option<Dog>)
    ensures r.Some? <==> p.name.Some? && p.breed.Some? && p.size.Some? && p.age.Some? && ValidDogFields(p)
    ensures r.Some? ==> ValidDog(r.value)
    ensures r.Some? ==> && r.value.name == p.name.value && r.value.breed == Trim(p.breed.value)
                        && r.value.size == p.size.value && r.value.age == p.age.value
                        && r.value.foodList == p.foodList.GetOr([])
  {
    if p.name.None? || p.breed.None? || p.size.None? || p.age.None? then None
    else
      var d := Dog(p.name.value, Trim(p.breed.value), p.size.value, p.age.value, p.foodList.GetOr([]));
      if ValidDog(d) then Some(d) else None
  }

  /** The update merge: every supplied field replaces the stored one (through the same
      `trim` setter), every other field is kept. */
  function MergeDog(d: Dog, p: DogPayload): (m: Dog)
    ensures p.name.None? ==> m.name == d.name
    ensures p.breed.None? ==> m.breed == d.breed
    ensures p.size.None? ==> m.size == d.size
    ensures p.age.None? ==> m.age == d.age
    ensures p.foodList.None? ==> m.foodList == d.foodList
    ensures p.name.Some? ==> m.name == p.name.value
    ensures p.breed.Some? ==> m.breed == Trim(p.breed.value)
    ensures p.size.Some? ==> m.size == p.size.value
    ensures p.age.Some? ==> m.age == p.age.value
    ensures p.foodList.Some? ==> m.foodList == p.foodList.value
  {
    Dog(p.name.GetOr(d.name),
        if p.breed.Some? then Trim(p.breed.value) else d.breed,
        p.size.GetOr(d.size),
        p.age.GetOr(d.age),
        p.foodList.GetOr(d.foodList))
  }

  /** A stored dog is valid exactly when its own fields, sent as a body, pass the field
      checks and its breed is already as the `trim` setter would store it. */
  lemma ValidDogOfFields(d: Dog)
    ensures ValidDog(d) <==> && ValidDogFields(DogPayload(Some(d.name), Some(d.breed), Some(d.size), Some(d.age), None))
                             && Trim(d.breed) == d.breed
  {
  }

  /** An update that supplies every field, the food list included, stores exactly what
      create would. */
  lemma MergeDogFullBody(d: Dog, p: DogPayload)
    ensures CastDog(p).Some? && p.foodList.Some? ==> MergeDog(d, p) == CastDog(p).value
  {
  }

  /** Updating a valid dog yields a valid dog exactly when every supplied field is acceptable. */
  lemma MergeDogValid(d: Dog, p: DogPayload)
    requires ValidDog(d)
    ensures ValidDog(MergeDog(d, p)) <==> ValidDogFields(p)
  {
  }

  /** Applying the same update twice changes nothing more than applying it once. */
  lemma MergeDogIdempotent(d: Dog, p: DogPayload)
    ensures MergeDog(MergeDog(d, p), p) == MergeDog(d, p)
  {
    var g := MergeDog(d, p);
    var h := MergeDog(g, p);
    assert h.breed == g.breed by {
      if p.breed.Some? { TrimIdempotent(p.breed.value); }
    }
  }

  /** An empty body leaves a stored dog as it is. */
  lemma MergeDogEmpty(d: Dog)
    ensures MergeDog(d, DogPayload(None, None, None, None, None)) == d
  {
  }

  /** The food list plays no part in validity: appending to it keeps a valid dog valid. */
  lemma ValidDogAnyFoodList(d: Dog, foodList: seq<Id>)
    ensures ValidDog(d.(foodList := foodList)) <==> ValidDog(d)
  {
  }
}
