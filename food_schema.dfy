/** The Food schema of app/model/Food.js: what a stored food item looks like and what
    the schema makes of a request body on create and on update. */
module FoodSchema {
  import opened Wrappers
  import opened JsStrings
  import opened Envelope

  const FoodTypes: seq<string> := ["wet", "dry"]
  const MinCost: real := 1.0
  const MaxCost: real := 60.0

  /** A stored food item; `dog` is the identifier of its Dog document. */
  datatype Food = Food(dog: Id, foodtype: string, flavor: string, cost: real)

  /** A request body: any field may be missing. */
  datatype FoodPayload = FoodPayload(
    dog: Option<Id>,
    foodtype: Option<string>,
    flavor: Option<string>,
    cost: Option<real>)

  /** Both food types are stored as written: trimming leaves them unchanged. */
  lemma FoodTypeTrimmed(t: string)
    ensures t in FoodTypes ==> Trim(t) == t
  {
    assert IsTrimmed("wet") && IsTrimmed("dry");
  }

  /** The schema's constraints on a stored food item: `foodtype` is "wet" or "dry"
      (after trimming), `flavor` is a non-empty trimmed string and `cost` lies in [1, 60]. */
  predicate ValidFood(f: Food)
  {
    && f.foodtype in FoodTypes
    && f.flavor != "" && IsTrimmed(f.flavor)
    && MinCost <= f.cost <= MaxCost
  }

  /** What each field supplied in a body must satisfy, checked after the `trim` setters. */
  predicate ValidFoodFields(p: FoodPayload) {
    && (p.foodtype.Some? ==> Trim(p.foodtype.value) in FoodTypes)
    && (p.flavor.Some? ==> Trim(p.flavor.value) != "")
    && (p.cost.Some? ==> MinCost <= p.cost.value <= MaxCost)
  }

  /** `Food.create(body)`: the `trim` setters, then validation. The document exists exactly
      when every required field (the dog reference included) is present and every field
      meets its constraint. */
  function CastFood(p: FoodPayload): (r: Option<Food>)
    ensures r.Some? <==> p.dog.Some? && p.foodtype.Some? && p.flavor.Some? && p.cost.Some? && ValidFoodFields(p)
    ensures r.Some? ==> ValidFood(r.value)
    ensures r.Some? ==> && r.value.dog == p.dog.value && r.value.foodtype == Trim(p.foodtype.value)
                        && r.value.flavor == Trim(p.flavor.value) && r.value.cost == p.cost.value
  {
    if p.dog.None? || p.foodtype.None? || p.flavor.None? || p.cost.None? then None
    else
      var f := Food(p.dog.value, Trim(p.foodtype.value), Trim(p.flavor.value), p.cost.value);
      if ValidFood(f) then Some(f) else None
  }

  /** The update merge: every supplied field replaces the stored one (through the same
      `trim` setters), every other field is kept. */
  function MergeFood(f: Food, p: FoodPayload): (m: Food)
    ensures p.dog.None? ==> m.dog == f.dog
    ensures p.foodtype.None? ==> m.foodtype == f.foodtype
    ensures p.flavor.None? ==> m.flavor == f.flavor
    ensures p.cost.None? ==> m.cost == f.cost
    ensures p.dog.Some? ==> m.dog == p.dog.value
    ensures p.foodtype.Some? ==> m.foodtype == Trim(p.foodtype.value)
    ensures p.flavor.Some? ==> m.flavor == Trim(p.flavor.value)
    ensures p.cost.Some? ==> m.cost == p.cost.value
  {
    Food(p.dog.GetOr(f.dog),
         if p.foodtype.Some? then Trim(p.foodtype.value) else f.foodtype,
         if p.flavor.Some? then Trim(p.flavor.value) else f.flavor,
         p.cost.GetOr(f.cost))
  }

  /** A stored item is valid exactly when its own fields, sent as a body, pass the field
      checks and are already as the `trim` setters would store them. */
  lemma ValidFoodOfFields(f: Food)
    ensures ValidFood(f) <==> && ValidFoodFields(FoodPayload(Some(f.dog), Some(f.foodtype), Some(f.flavor), Some(f.cost)))
                              && Trim(f.foodtype) == f.foodtype && Trim(f.flavor) == f.flavor
  {
    FoodTypeTrimmed(f.foodtype);
  }

  /** An update that supplies every field stores exactly what create would. */
  lemma MergeFoodFullBody(f: Food, p: FoodPayload)
    ensures CastFood(p).Some? ==> MergeFood(f, p) == CastFood(p).value
  {
  }

  /** Updating a valid food item yields a valid one exactly when every supplied field is acceptable. */
  lemma MergeFoodValid(f: Food, p: FoodPayload)
    requires ValidFood(f)
    ensures ValidFood(MergeFood(f, p)) <==> ValidFoodFields(p)
  {
  }

  /** Applying the same update twice changes nothing more than applying it once. */
  lemma MergeFoodIdempotent(f: Food, p: FoodPayload)
    ensures MergeFood(MergeFood(f, p), p) == MergeFood(f, p)
  {
    var g := MergeFood(f, p);
    var h := MergeFood(g, p);
    assert h.foodtype == g.foodtype by {
      if p.foodtype.Some? { TrimIdempotent(p.foodtype.value); }
    }
    assert h.flavor == g.flavor by {
      if p.flavor.Some? { TrimIdempotent(p.flavor.value); }
    }
  }

  /** Changing only the flavor: the stored flavor becomes the trimmed new one and every
      other field stays as it was. */
  lemma MergeFoodFlavorOnly(f: Food, flavor: string)
    requires ValidFood(f) && Trim(flavor) != ""
    ensures var g := MergeFood(f, FoodPayload(None, None, Some(flavor), None));
      && g == f.(flavor := Trim(flavor))
      && ValidFood(g)
  {
  }
}
