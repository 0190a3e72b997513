/** router/categories.py: the category registry, whose names are stored
    normalised and rejected when one already exists in another letter case. */
module Categories {
  import opened Results
  import opened Text
  import opened ObjectIds
  import opened Database
  import opened Serializers

  function Names(cats: seq<CategoryDoc>): (r: seq<string>)
    ensures |r| == |cats|
    ensures forall i :: 0 <= i < |cats| ==> r[i] == cats[i].name
  {
    seq(|cats|, i requires 0 <= i < |cats| => cats[i].name)
  }

  /** `POST /categories/`: stores `name.strip().capitalize()` under a fresh id unless a
      stored name equals it ignoring case. */
  method AddCategory(db: Db, name: string) returns (res: Result<CategoryView, ApiError>)
    requires db.Valid()
    modifies db`categories, db`nextId
    ensures db.Valid()
    ensures var n := NormalizeName(name);
      HasIgnoringCase(Names(old(db.categories)), n) ==>
        && res == Err(BadRequest("Category '" + n + "' already exists."))
        && db.categories == old(db.categories) && db.nextId == old(db.nextId)
    ensures var n := NormalizeName(name);
      !HasIgnoringCase(Names(old(db.categories)), n) ==>
        && res == Ok(CategoryView(IdString(old(db.nextId)), n))
        && db.categories == old(db.categories) + [CategoryDoc(old(db.nextId), n)]
        && db.nextId == old(db.nextId) + 1
    ensures NoCaseDuplicates(Names(old(db.categories))) ==> NoCaseDuplicates(Names(db.categories))
  {
    var n := NormalizeName(name);
    if HasIgnoringCase(Names(db.categories), n) {
      return Err(BadRequest("Category '" + n + "' already exists."));
    }
    var id := db.NewId();
    ghost var before := db.categories;
    db.categories := db.categories + [CategoryDoc(id, n)];
    assert Names(db.categories) == Names(before) + [n];
    if NoCaseDuplicates(Names(before)) {
      AppendKeepsNoCaseDuplicates(Names(before), n);
    }
    return Ok(CategoryView(IdString(id), n));
  }

  /** `GET /categories/`: one entry per stored category, in store order. The response
      model `List[Category]` keeps only the `name` of each serialised category. */
  method GetAllCategories(db: Db) returns (names: seq<string>)
    ensures |names| == |db.categories|
    ensures forall i :: 0 <= i < |db.categories| ==> names[i] == CategorySerializer(db.categories[i]).name
  {
    var cats := db.categories;
    names := seq(|cats|, i requires 0 <= i < |cats| => CategorySerializer(cats[i]).name);
  }

  /** Adding the same category twice in different spellings stores it once: the
      second request, " food" after "FOOD", is refused. */
  method AddTwice(db: Db) returns (first: Result<CategoryView, ApiError>, second: Result<CategoryView, ApiError>)
    requires db.Valid() && !HasIgnoringCase(Names(db.categories), NormalizeName("FOOD"))
    modifies db`categories, db`nextId
    ensures first.Ok? && first.value.name == NormalizeName("FOOD")
    ensures second.Err?
  {
    first := AddCategory(db, "FOOD");
    LowerOfNormalizedName("FOOD");
    LowerOfNormalizedName(" food");
    assert EqualsIgnoreCase(Names(db.categories)[|db.categories| - 1], NormalizeName(" food"));
    second := AddCategory(db, " food");
  }
}
