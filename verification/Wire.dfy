/**
 The two array events of the helper contract and the JSON lines they are written as:
 object keys in alphabetical order, optional scalars left out when empty.  A `char`
 of a line stands for one byte.  How a string, a thread or a message is rendered is a
 parameter; everything below holds for every rendering.
 */
module Wire {
  import opened Cursor

  datatype Render<!C, !M> = Render(quote: string -> string, conversation: C -> string, message: M -> string)

  datatype Event<+C, +M> =
    | Conversations(threads: seq<C>, full: bool, generation: nat)
    | Messages(conversation: string, messages: seq<M>, full: bool, generation: nat,
               cursorNext: string, pageComplete: bool, fetchID: nat)

  const UINT64: nat := 0x1_0000_0000_0000_0000

  function Bool(b: bool): string {
    if b then "true" else "false"
  }

  /** Elements separated by commas. */
  function Join<T>(render: T -> string, items: seq<T>): string {
    if items == [] then ""
    else if |items| == 1 then render(items[0])
    else render(items[0]) + "," + Join(render, items[1..])
  }

  function Key(key: string): string {
    "\"" + key + "\":"
  }

  /** A number under its key, unless it is zero. */
  function OptionalNumber(key: string, n: nat): string {
    if n == 0 then "" else Key(key) + FormatNat(n) + ","
  }

  function OptionalString(key: string, quote: string -> string, s: string): string {
    if s == "" then "" else Key(key) + quote(s) + ","
  }

  function Line<C, M>(r: Render<C, M>, account: string, e: Event<C, M>): string {
    match e
    case Conversations(threads, full, generation) =>
      "{" + Key("account") + r.quote(account) + ","
      + Key("conversations") + ("[" + Join(r.conversation, threads) + "]") + ","
      + Key("full") + Bool(full) + ","
      + OptionalNumber("generation", generation)
      + Key("type") + "\"conversations\"" + "}"
    case Messages(conversation, messages, full, generation, cursorNext, pageComplete, fetchID) =>
      "{" + Key("account") + r.quote(account) + ","
      + Key("conversation") + r.quote(conversation) + ","
      + OptionalString("cursor_next", r.quote, cursorNext)
      + OptionalNumber("fetch_id", fetchID)
      + Key("full") + Bool(full) + ","
      + OptionalNumber("generation", generation)
      + Key("messages") + ("[" + Join(r.message, messages) + "]") + ","
      + Key("page_complete") + Bool(pageComplete) + ","
      + Key("type") + "\"messages\"" + "}"
  }

  /** A comma-separated list costs its parts, and one comma where both parts have something. */
  lemma {:induction false} JoinLength<T>(render: T -> string, a: seq<T>, b: seq<T>)
    ensures |Join(render, a + b)| ==
            |Join(render, a)| + |Join(render, b)| + if a != [] && b != [] then 1 else 0
  {
    if a == [] {
      assert a + b == b;
    } else if b == [] {
      assert a + b == a;
    } else {
      assert (a + b)[1..] == a[1..] + b;
      JoinLength(render, a[1..], b);
    }
  }

  lemma NumberLength(key: string, n: nat)
    requires n < UINT64
    ensures |OptionalNumber(key, n)| <= |key| + 24
  {
    assert n < Pow10(20) by {
      assert Pow10(5) == 100_000;
      assert Pow10(10) == 100_000 * Pow10(5);
      assert Pow10(15) == 100_000 * Pow10(10);
      assert Pow10(20) == 100_000 * Pow10(15);
    }
    FormatNatLength(n, 20);
  }

  // ---------- the line as an object ----------

  datatype Field = Field(key: string, value: string)

  function FieldText(m: Field): string {
    Key(m.key) + m.value
  }

  /** The fields of an event in alphabetical order; the optional ones only where they say something. */
  function Fields<C, M>(r: Render<C, M>, account: string, e: Event<C, M>): seq<Field> {
    match e
    case Conversations(threads, full, generation) =>
      [Field("account", r.quote(account))]
      + [Field("conversations", "[" + Join(r.conversation, threads) + "]")]
      + [Field("full", Bool(full))]
      + Optional(generation != 0, Field("generation", FormatNat(generation)))
      + [Field("type", "\"conversations\"")]
    case Messages(conversation, messages, full, generation, cursorNext, pageComplete, fetchID) =>
      [Field("account", r.quote(account))]
      + [Field("conversation", r.quote(conversation))]
      + Optional(cursorNext != "", Field("cursor_next", r.quote(cursorNext)))
      + Optional(fetchID != 0, Field("fetch_id", FormatNat(fetchID)))
      + [Field("full", Bool(full))]
      + Optional(generation != 0, Field("generation", FormatNat(generation)))
      + [Field("messages", "[" + Join(r.message, messages) + "]")]
      + [Field("page_complete", Bool(pageComplete))]
      + [Field("type", "\"messages\"")]
  }

  lemma {:induction false} JoinConcat<T>(render: T -> string, a: seq<T>, b: seq<T>)
    requires b != []
    ensures Join(render, a + b) == (if a == [] then "" else Join(render, a) + ",") + Join(render, b)
  {
    if a == [] {
      assert a + b == b;
    } else {
      assert (a + b)[1..] == a[1..] + b;
      JoinConcat(render, a[1..], b);
    }
  }

  lemma Chain(a: string, b: string, c: string)
    ensures a + (b + c) == a + b + c
  {
  }

  /** A key and its value after other text. */
  lemma KeyAfter(text: string, key: string, value: string)
    ensures text + FieldText(Field(key, value)) == text + Key(key) + value
  {
    Chain(text, Key(key), value);
  }

  /** The text of a list of fields, each with a comma behind it. */
  function Listed(fields: seq<Field>): string {
    if fields == [] then "" else Listed(fields[..|fields| - 1]) + FieldText(fields[|fields| - 1]) + ","
  }

  lemma {:induction false} JoinListed(fields: seq<Field>, last: Field)
    ensures Join(FieldText, fields + [last]) == Listed(fields) + FieldText(last)
  {
    if fields == [] {
      assert fields + [last] == [last];
    } else {
      var n := |fields| - 1;
      assert fields == fields[..n] + [fields[n]];
      JoinListed(fields[..n], fields[n]);
      JoinConcat(FieldText, fields, [last]);
    }
  }

  lemma ListedOne(fields: seq<Field>, f: Field)
    ensures Listed(fields + [f]) == Listed(fields) + FieldText(f) + ","
  {
    assert (fields + [f])[..|fields|] == fields;
  }

  /** One more field behind what is there. */
  lemma Grow(fields: seq<Field>, f: Field, text: string)
    requires text == "{" + Listed(fields)
    ensures "{" + Listed(fields + [f]) == text + Key(f.key) + f.value + ","
  {
    ListedOne(fields, f);
    Chain("{", Listed(fields) + FieldText(f), ",");
    Chain("{", Listed(fields), FieldText(f));
    KeyAfter(text, f.key, f.value);
  }

  function Optional(present: bool, f: Field): seq<Field> {
    if present then [f] else []
  }

  function OptionalText(present: bool, f: Field): string {
    if present then Key(f.key) + f.value + "," else ""
  }

  /** The same for a field that may be left out. */
  lemma GrowOptional(fields: seq<Field>, present: bool, f: Field, text: string)
    requires text == "{" + Listed(fields)
    ensures "{" + Listed(fields + Optional(present, f)) == text + OptionalText(present, f)
  {
    if present {
      Grow(fields, f, text);
      Chain(text, Key(f.key) + f.value, ",");
      Chain(text, Key(f.key), f.value);
    } else {
      assert fields + [] == fields;
    }
  }

  lemma Finish(fields: seq<Field>, f: Field, text: string)
    requires text == "{" + Listed(fields)
    ensures "{" + Join(FieldText, fields + [f]) + "}" == text + Key(f.key) + f.value + "}"
  {
    JoinListed(fields, f);
    Chain("{", Listed(fields), FieldText(f));
    KeyAfter(text, f.key, f.value);
  }

  /** An object with an optional field before the last. */
  lemma FourFields(a: Field, c: Field, f: Field, numbered: bool, g: Field, t: Field)
    ensures "{" + Join(FieldText, [a] + [c] + [f] + Optional(numbered, g) + [t]) + "}"
            == "{" + Key(a.key) + a.value + "," + Key(c.key) + c.value + "," + Key(f.key) + f.value + ","
               + OptionalText(numbered, g) + Key(t.key) + t.value + "}"
  {
    var t1 := "{" + Key(a.key) + a.value + ",";
    var t2 := t1 + Key(c.key) + c.value + ",";
    var t3 := t2 + Key(f.key) + f.value + ",";
    Grow([], a, "{");
    assert [] + [a] == [a];
    Grow([a], c, t1);
    Grow([a] + [c], f, t2);
    GrowOptional([a] + [c] + [f], numbered, g, t3);
    Finish([a] + [c] + [f] + Optional(numbered, g), t, t3 + OptionalText(numbered, g));
  }

  /** The first part of an object: two fields, two optional ones, one field, one optional one. */
  lemma SixFields(a: Field, c: Field, paged: bool, n: Field, asked: bool, i: Field, f: Field, numbered: bool, g: Field)
    returns (fields: seq<Field>, text: string)
    ensures text == "{" + Listed(fields)
    ensures fields == [a] + [c] + Optional(paged, n) + Optional(asked, i) + [f] + Optional(numbered, g)
    ensures text == "{" + Key(a.key) + a.value + "," + Key(c.key) + c.value + "," + OptionalText(paged, n)
                    + OptionalText(asked, i) + Key(f.key) + f.value + "," + OptionalText(numbered, g)
  {
    var f2, t1 := [a] + [c], "{" + Key(a.key) + a.value + ",";
    var t2 := t1 + Key(c.key) + c.value + ",";
    Grow([], a, "{");
    assert [] + [a] == [a];
    Grow([a], c, t1);
    GrowOptional(f2, paged, n, t2);
    fields, text := f2 + Optional(paged, n), t2 + OptionalText(paged, n);
    GrowOptional(fields, asked, i, text);
    fields, text := fields + Optional(asked, i), text + OptionalText(asked, i);
    Grow(fields, f, text);
    fields, text := fields + [f], text + Key(f.key) + f.value + ",";
    GrowOptional(fields, numbered, g, text);
    fields, text := fields + Optional(numbered, g), text + OptionalText(numbered, g);
  }

  /** The whole object: three more fields. */
  lemma NineFields(a: Field, c: Field, paged: bool, n: Field, asked: bool, i: Field, f: Field, numbered: bool, g: Field,
                   m: Field, p: Field, t: Field)
    ensures "{" + Join(FieldText, [a] + [c] + Optional(paged, n) + Optional(asked, i) + [f] + Optional(numbered, g)
                                  + [m] + [p] + [t]) + "}"
            == "{" + Key(a.key) + a.value + "," + Key(c.key) + c.value + "," + OptionalText(paged, n)
               + OptionalText(asked, i) + Key(f.key) + f.value + "," + OptionalText(numbered, g)
               + Key(m.key) + m.value + "," + Key(p.key) + p.value + "," + Key(t.key) + t.value + "}"
  {
    var fields, text := SixFields(a, c, paged, n, asked, i, f, numbered, g);
    Grow(fields, m, text);
    Grow(fields + [m], p, text + Key(m.key) + m.value + ",");
    Finish(fields + [m] + [p], t, text + Key(m.key) + m.value + "," + Key(p.key) + p.value + ",");
  }

  /** A thread line is the object of its fields. */
  lemma ThreadLineIsObject<C, M>(r: Render<C, M>, account: string, threads: seq<C>, full: bool, generation: nat)
    ensures var e := Conversations(threads, full, generation);
            Line(r, account, e) == "{" + Join(FieldText, Fields<C, M>(r, account, e)) + "}"
  {
    FourFields(Field("account", r.quote(account)), Field("conversations", "[" + Join(r.conversation, threads) + "]"),
               Field("full", Bool(full)), generation != 0, Field("generation", FormatNat(generation)),
               Field("type", "\"conversations\""));
  }

  /** A message line is the object of its fields. */
  lemma WindowLineIsObject<C, M>(r: Render<C, M>, account: string, conversation: string, messages: seq<M>, full: bool,
                                 generation: nat, cursorNext: string, pageComplete: bool, fetchID: nat)
    ensures var e := Messages(conversation, messages, full, generation, cursorNext, pageComplete, fetchID);
            Line(r, account, e) == "{" + Join(FieldText, Fields<C, M>(r, account, e)) + "}"
  {
    NineFields(Field("account", r.quote(account)), Field("conversation", r.quote(conversation)),
               cursorNext != "", Field("cursor_next", r.quote(cursorNext)),
               fetchID != 0, Field("fetch_id", FormatNat(fetchID)),
               Field("full", Bool(full)), generation != 0, Field("generation", FormatNat(generation)),
               Field("messages", "[" + Join(r.message, messages) + "]"),
               Field("page_complete", Bool(pageComplete)), Field("type", "\"messages\""));
  }
}
