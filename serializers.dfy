/** The record-to-response mappings of serializers.py. */
module Serializers {
  import opened Results
  import opened Dates
  import opened ObjectIds
  import opened Database

  datatype ExpenseView = ExpenseView(id: string, amount: int, category: string, date: Option<string>, description: string)

  datatype CategoryView = CategoryView(id: string, name: string)

  /** `expense_serializer`. */
  function ExpenseSerializer(d: ExpenseDoc): ExpenseView {
    ExpenseView(
      IdString(d.id),
      d.amount,
      d.category,
      if d.date.Some? then Some(FormatYmd(d.date.value)) else None,
      if d.description.Some? then d.description.value else "")
  }

  /** `category_serializer`. */
  function CategorySerializer(c: CategoryDoc): CategoryView {
    CategoryView(IdString(c.id), c.name)
  }

  /** What an expense response tells a client about the stored document: its id
      reads back as the document's ObjectId, amount and category are copied, a
      missing date stays missing, a date reads back with `strptime` as that day,
      and a missing description is empty. */
  lemma ExpenseSerializerFaithful(d: ExpenseDoc)
    requires d.id < Pow16(IdDigits)
    ensures var v := ExpenseSerializer(d);
      && ObjectIds.Parse(v.id) == Some(d.id)
      && v.amount == d.amount && v.category == d.category
      && (v.date.None? <==> d.date.None?)
      && (d.date.Some? && d.date.value.year >= 1000 ==> ParseYmd(v.date.value) == Some(StartOfDay(d.date.value)))
      && v.description == (if d.description.Some? then d.description.value else "")
  {
    ParseIdString(d.id);
    if d.date.Some? && d.date.value.year >= 1000 {
      ParseFormatRoundTrip(d.date.value);
    }
  }

  /** A category response names the stored category and its id reads back as its ObjectId. */
  lemma CategorySerializerFaithful(c: CategoryDoc)
    requires c.id < Pow16(IdDigits)
    ensures ObjectIds.Parse(CategorySerializer(c).id) == Some(c.id)
    ensures CategorySerializer(c).name == c.name
  {
    ParseIdString(c.id);
  }
}
