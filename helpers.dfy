/**
 * The general helpers of src/utils/helpers.js that compute a value:
 * `toQueryParams`, the query-string serializer behind every list request,
 * and the text helpers `truncateText`, `getInitials` and `isEmpty`.
 * `encodeURIComponent` and `JSON.stringify` are parameters: the serializer
 * is stated for any string encoder and any serializer of objects.
 */
module Helpers {
  import opened JsText
  import opened JsValue

  // ---------------------------------------------------------------- toQueryParams

  /** The two options after destructuring: whether null and undefined values
      are skipped, and whether array keys get the `[]` suffix. */
  datatype QueryOptions = QueryOptions(skipNull: bool, bracket: bool)

  /** `const { skipNull = true, arrayFormat = 'bracket' } = options` with
      `options = {}` as the default argument. A default replaces only an
      undefined property; destructuring null throws. `skipNull` is used for
      its truthiness, `arrayFormat` is compared with `=== 'bracket'`. */
  function ReadOptions(options: Value): (r: Completion<QueryOptions>)
    ensures r.Threw? <==> options.Null?
    ensures options.Undefined? ==> r == Normal(QueryOptions(true, true))
    ensures r.Normal? ==>
      && (r.value.skipNull <==> OptGet(options, "skipNull").Undefined? || Truthy(OptGet(options, "skipNull")))
      && (r.value.bracket <==> OptGet(options, "arrayFormat") in {Undefined, Str("bracket")})
  {
    if options.Null? then Threw
    else
      var skipNull := OptGet(options, "skipNull");
      var arrayFormat := OptGet(options, "arrayFormat");
      Normal(QueryOptions(
        Truthy(if skipNull.Undefined? then Bool(true) else skipNull),
        StrictEquals(if arrayFormat.Undefined? then Str("bracket") else arrayFormat, Str("bracket"))))
  }

  /** The parts one array value contributes under the encoded key ek, one
      `ek=item` per item that is not skipped, in item order. */
  function ItemParts(ek: string, items: seq<Value>, skipNull: bool, encode: string -> string): seq<string>
    decreases |items|
  {
    if items == [] then []
    else
      var init := ItemParts(ek, items[..|items| - 1], skipNull, encode);
      var item := items[|items| - 1];
      if skipNull && Nullish(item) then init else init + [ek + "=" + encode(ToJsString(item))]
  }

  /** The parts one `[key, value]` entry contributes. */
  function EntryParts(key: string, value: Value, opts: QueryOptions,
                      encode: string -> string, stringify: Value -> string): (parts: seq<string>)
    ensures opts.skipNull && (Nullish(value) || value == Arr([])) ==> parts == []
    ensures !value.Arr? && !(opts.skipNull && Nullish(value)) ==>
      |parts| == 1 && |parts[0]| > |encode(key)| && parts[0][..|encode(key)| + 1] == encode(key) + "="
    ensures IsTypeofObject(value) && !value.Arr? && !(opts.skipNull && Nullish(value)) ==>
      parts == [encode(key) + "=" + encode(stringify(value))]
    ensures !IsTypeofObject(value) && !(opts.skipNull && Nullish(value)) ==>
      parts == [encode(key) + "=" + encode(ToJsString(value))]
    ensures value.Arr? ==>
      parts == ItemParts(if opts.bracket then encode(key) + "[]" else encode(key), value.items, opts.skipNull, encode)
  {
    if opts.skipNull && Nullish(value) then []
    else if value.Arr? then
      if |value.items| == 0 && opts.skipNull then []
      else ItemParts(if opts.bracket then encode(key) + "[]" else encode(key), value.items, opts.skipNull, encode)
    else if IsTypeofObject(value) then
      var part := encode(key) + "=" + encode(stringify(value));
      assert part[..|encode(key)| + 1] == encode(key) + "=";
      [part]
    else
      var part := encode(key) + "=" + encode(ToJsString(value));
      assert part[..|encode(key)| + 1] == encode(key) + "=";
      [part]
  }

  /** The parts of a list of entries, entry after entry. */
  function QueryParts(entries: seq<Prop>, opts: QueryOptions,
                      encode: string -> string, stringify: Value -> string): seq<string>
    decreases |entries|
  {
    if entries == [] then []
    else
      var last := entries[|entries| - 1];
      QueryParts(entries[..|entries| - 1], opts, encode, stringify)
        + EntryParts(last.key, last.val, opts, encode, stringify)
  }

  /** What `toQueryParams(params, options)` returns: '' for a falsy argument
      or one whose `typeof` is not 'object', otherwise the parts of
      `Object.entries(params)` joined by '&'. The options are read before
      params is looked at. */
  function QueryString(params: Value, options: Value,
                       encode: string -> string, stringify: Value -> string): (r: Completion<string>)
    ensures r.Threw? <==> options.Null?
    ensures r.Normal? && !(Truthy(params) && IsTypeofObject(params)) ==> r.value == ""
  {
    match ReadOptions(options)
    case Threw => Threw
    case Normal(opts) =>
      if !Truthy(params) || !IsTypeofObject(params) then Normal("")
      else Normal(Join(QueryParts(OwnProps(params), opts, encode, stringify), "&"))
  }

  /** `toQueryParams`: the entries are visited in order, each pushing its
      parts onto `queryParts`. */
  method ToQueryParams(params: Value, options: Value,
                       encode: string -> string, stringify: Value -> string) returns (r: Completion<string>)
    ensures r == QueryString(params, options, encode, stringify)
  {
    var read := ReadOptions(options);
    if read.Threw? {
      return Threw;
    }
    var opts := read.value;
    if !Truthy(params) || !IsTypeofObject(params) {
      return Normal("");
    }
    var entries := OwnProps(params);
    var queryParts: seq<string> := [];
    var i := 0;
    while i < |entries|
      invariant 0 <= i <= |entries|
      invariant queryParts == QueryParts(entries[..i], opts, encode, stringify)
    {
      queryParts := PushEntryParts(queryParts, entries[i].key, entries[i].val, opts, encode, stringify);
      QueryPartsPrefix(entries, i, opts, encode, stringify);
      i := i + 1;
    }
    assert entries[..i] == entries;
    return Normal(Join(queryParts, "&"));
  }

  /** One more entry adds its parts at the end. */
  lemma QueryPartsPrefix(entries: seq<Prop>, i: int, opts: QueryOptions,
                         encode: string -> string, stringify: Value -> string)
    requires 0 <= i < |entries|
    ensures QueryParts(entries[..i + 1], opts, encode, stringify)
         == QueryParts(entries[..i], opts, encode, stringify)
            + EntryParts(entries[i].key, entries[i].val, opts, encode, stringify)
  {
    assert entries[..i + 1][..i] == entries[..i];
  }

  /** The `forEach` callback for one `[key, value]` entry: it pushes the
      entry's parts, visiting an array value's items in order. */
  method PushEntryParts(queryParts: seq<string>, key: string, value: Value, opts: QueryOptions,
                        encode: string -> string, stringify: Value -> string) returns (out: seq<string>)
    ensures out == queryParts + EntryParts(key, value, opts, encode, stringify)
  {
    out := queryParts;
    if opts.skipNull && Nullish(value) {
      return;
    }
    if value.Arr? {
      if |value.items| == 0 && opts.skipNull {
        return;
      }
      var ek := if opts.bracket then encode(key) + "[]" else encode(key);
      var j := 0;
      while j < |value.items|
        invariant 0 <= j <= |value.items|
        invariant out == queryParts + ItemParts(ek, value.items[..j], opts.skipNull, encode)
      {
        var item := value.items[j];
        assert value.items[..j + 1][..j] == value.items[..j];
        if !(opts.skipNull && Nullish(item)) {
          out := out + [ek + "=" + encode(ToJsString(item))];
        }
        j := j + 1;
      }
      assert value.items[..j] == value.items;
      return;
    }
    if IsTypeofObject(value) {
      out := out + [encode(key) + "=" + encode(stringify(value))];
      return;
    }
    out := out + [encode(key) + "=" + encode(ToJsString(value))];
  }

  /** The parts of consecutive entries follow each other: parts appear in
      entry order. */
  lemma {:induction false} QueryPartsAppend(a: seq<Prop>, b: seq<Prop>, opts: QueryOptions,
                                            encode: string -> string, stringify: Value -> string)
    ensures QueryParts(a + b, opts, encode, stringify)
         == QueryParts(a, opts, encode, stringify) + QueryParts(b, opts, encode, stringify)
    decreases |b|
  {
    if b != [] {
      assert (a + b)[..|a + b| - 1] == a + b[..|b| - 1];
      assert (a + b)[|a + b| - 1] == b[|b| - 1];
      QueryPartsAppend(a, b[..|b| - 1], opts, encode, stringify);
    } else {
      assert a + b == a;
    }
  }

  /** Each entry contributes its own parts, in order. */
  lemma QueryPartsCons(p: Prop, rest: seq<Prop>, opts: QueryOptions,
                       encode: string -> string, stringify: Value -> string)
    ensures QueryParts([p] + rest, opts, encode, stringify)
         == EntryParts(p.key, p.val, opts, encode, stringify) + QueryParts(rest, opts, encode, stringify)
  {
    QueryPartsAppend([p], rest, opts, encode, stringify);
    assert [p][..0] == [];
    assert QueryParts([p], opts, encode, stringify) == EntryParts(p.key, p.val, opts, encode, stringify);
  }

  /** The item parts of consecutive items follow each other. */
  lemma {:induction false} ItemPartsAppend(ek: string, a: seq<Value>, b: seq<Value>, skipNull: bool,
                                           encode: string -> string)
    ensures ItemParts(ek, a + b, skipNull, encode) == ItemParts(ek, a, skipNull, encode) + ItemParts(ek, b, skipNull, encode)
    decreases |b|
  {
    if b != [] {
      assert (a + b)[..|a + b| - 1] == a + b[..|b| - 1];
      assert (a + b)[|a + b| - 1] == b[|b| - 1];
      ItemPartsAppend(ek, a, b[..|b| - 1], skipNull, encode);
    } else {
      assert a + b == a;
    }
  }

  /** Unless items are skipped, there is exactly one `ek=item` part per item,
      at the item's position. */
  lemma {:induction false} ItemPartsAll(ek: string, items: seq<Value>, skipNull: bool, encode: string -> string)
    requires !skipNull || forall k :: 0 <= k < |items| ==> !Nullish(items[k])
    ensures var parts := ItemParts(ek, items, skipNull, encode);
      && |parts| == |items|
      && forall k :: 0 <= k < |items| ==> parts[k] == ek + "=" + encode(ToJsString(items[k]))
    decreases |items|
  {
    if items != [] {
      ItemPartsAll(ek, items[..|items| - 1], skipNull, encode);
    }
  }

  /** The number of null or undefined items. */
  function NullishCount(items: seq<Value>): nat {
    if items == [] then 0 else (if Nullish(items[0]) then 1 else 0) + NullishCount(items[1..])
  }

  /** With skipNull, each null or undefined item is dropped and only those. */
  lemma {:induction false} ItemPartsCount(ek: string, items: seq<Value>, encode: string -> string)
    ensures |ItemParts(ek, items, true, encode)| == |items| - NullishCount(items)
    decreases |items|
  {
    if items != [] {
      var n := |items|;
      ItemPartsCount(ek, items[..n - 1], encode);
      NullishCountLast(items);
    }
  }

  lemma {:induction false} NullishCountLast(items: seq<Value>)
    requires items != []
    ensures NullishCount(items) == NullishCount(items[..|items| - 1]) + (if Nullish(items[|items| - 1]) then 1 else 0)
  {
    if |items| > 1 {
      assert items[1..][..|items| - 2] == items[..|items| - 1][1..];
      NullishCountLast(items[1..]);
    }
  }

  /** An identity encoder, standing in for `encodeURIComponent` in the
      examples below: on their keys and values, which are letters and digits
      only, the two agree. The "[]" of the bracket format is appended after
      encoding, so it is never encoded in either. */
  function Verbatim(s: string): string { s }

  /** The part of an entry whose value is neither skipped, nor an array, nor
      of type 'object'. */
  lemma PrimitiveEntry(key: string, value: Value, opts: QueryOptions,
                       encode: string -> string, stringify: Value -> string)
    requires !IsTypeofObject(value) && !(opts.skipNull && Nullish(value))
    ensures EntryParts(key, value, opts, encode, stringify) == [encode(key) + "=" + encode(ToJsString(value))]
  {
  }

  /** The part of an entry whose value is an object or null (`typeof` gives
      'object', and it is not an array): the encoded key, '=' and the encoded
      JSON text of the value. */
  lemma ObjectEntry(key: string, value: Value, opts: QueryOptions,
                    encode: string -> string, stringify: Value -> string)
    requires IsTypeofObject(value) && !value.Arr? && !(opts.skipNull && Nullish(value))
    ensures EntryParts(key, value, opts, encode, stringify) == [encode(key) + "=" + encode(stringify(value))]
  {
  }

  /** The parts of three entries, one entry after the other. */
  lemma QueryPartsThree(e1: Prop, e2: Prop, e3: Prop, opts: QueryOptions,
                        encode: string -> string, stringify: Value -> string)
    ensures QueryParts([e1, e2, e3], opts, encode, stringify)
         == EntryParts(e1.key, e1.val, opts, encode, stringify)
            + EntryParts(e2.key, e2.val, opts, encode, stringify)
            + EntryParts(e3.key, e3.val, opts, encode, stringify)
  {
    var es := [e1, e2, e3];
    QueryPartsPrefix(es, 0, opts, encode, stringify);
    QueryPartsPrefix(es, 1, opts, encode, stringify);
    QueryPartsPrefix(es, 2, opts, encode, stringify);
    assert es[..0] == [] && es[..3] == es;
    var p1 := EntryParts(e1.key, e1.val, opts, encode, stringify);
    var p2 := EntryParts(e2.key, e2.val, opts, encode, stringify);
    var p3 := EntryParts(e3.key, e3.val, opts, encode, stringify);
    assert QueryParts(es[..0], opts, encode, stringify) == [];
    assert QueryParts(es[..1], opts, encode, stringify) == p1;
    assert QueryParts(es[..2], opts, encode, stringify) == p1 + p2;
  }

  /** For an object argument, the query string is its entries' parts joined. */
  lemma QueryStringOfObject(props: seq<Prop>, options: Value, opts: QueryOptions,
                            encode: string -> string, stringify: Value -> string)
    requires ReadOptions(options) == Normal(opts)
    ensures QueryString(Obj(props), options, encode, stringify)
         == Normal(Join(QueryParts(props, opts, encode, stringify), "&"))
  {
  }

  /** Joining a list of four, three or two parts.
      A helper of the worked examples only; it states no property of the model. */
  lemma JoinFew(a: string, b: string, c: string, d: string, sep: string)
    ensures Join([a, b], sep) == a + sep + b
    ensures Join([a, b, c], sep) == a + sep + (b + sep + c)
    ensures Join([a, b, c, d], sep) == a + sep + (b + sep + (c + sep + d))
  {
    assert Join([b], sep) == b;
    assert Join([a, b], sep) == a + sep + Join([a, b][1..], sep);
    assert [a, b][1..] == [b];
    assert [b, c][1..] == [c];
    assert Join([b, c], sep) == b + sep + c;
    assert [a, b, c][1..] == [b, c];
    assert [c, d][1..] == [d];
    assert [b, c, d][1..] == [c, d];
    assert Join([c, d], sep) == c + sep + d;
    assert Join([b, c, d], sep) == b + sep + (c + sep + d);
    assert [a, b, c, d][1..] == [b, c, d];
  }

  /** The query string of the doc-comment example, assembled from its parts.
      A helper of the worked examples only; it states no property of the model. */
  lemma DocExampleText()
    ensures "name=John" + "&" + ("age=30" + "&" + ("tags[]=a" + "&" + "tags[]=b")) == "name=John&age=30&tags[]=a&tags[]=b"
  {
    assert "tags[]=a" + "&" + "tags[]=b" == "tags[]=a&tags[]=b";
    assert "age=30" + "&" + "tags[]=a&tags[]=b" == "age=30&tags[]=a&tags[]=b";
  }

  /** The query string of the null-skipping example, assembled from its parts.
      A helper of the worked examples only; it states no property of the model. */
  lemma NullSkippedText()
    ensures "page=1" + "&" + ("tags[]=a" + "&" + "tags[]=b") == "page=1&tags[]=a&tags[]=b"
  {
    assert "tags[]=a" + "&" + "tags[]=b" == "tags[]=a&tags[]=b";
  }

  /** The query string of the repeat-format example, assembled from its parts.
      A helper of the worked examples only; it states no property of the model. */
  lemma RepeatFormatText()
    ensures "tags=a" + "&" + "tags=null" == "tags=a&tags=null"
  {
  }

  /** The single parts of the doc-comment example.
      A helper of the worked examples only; it states no property of the model. */
  lemma DocPartTexts()
    ensures Verbatim("name") + "=" + Verbatim(ToJsString(Str("John"))) == "name=John"
    ensures Verbatim("age") + "=" + Verbatim(ToJsString(Num(30))) == "age=30"
    ensures Verbatim("tags") + "[]" == "tags[]"
    ensures "tags[]" + "=" + Verbatim(ToJsString(Str("a"))) == "tags[]=a"
    ensures "tags[]" + "=" + Verbatim(ToJsString(Str("b"))) == "tags[]=b"
  {
    assert NatToString(30) == "30" by {
      assert NatToString(3) == "3";
    }
    assert "name" + "=" + "John" == "name=John";
    assert "age" + "=" + "30" == "age=30";
    assert "tags" + "[]" == "tags[]";
    assert "tags[]" + "=" + "a" == "tags[]=a";
    assert "tags[]" + "=" + "b" == "tags[]=b";
  }

  /** The single `page` part of the null-skipping example.
      A helper of the worked examples only; it states no property of the model. */
  lemma PagePartText()
    ensures Verbatim("page") + "=" + Verbatim(ToJsString(Num(1))) == "page=1"
  {
    assert Verbatim("page") + "=" + Verbatim(ToJsString(Num(1))) == "page" + "=" + "1";
  }

  /** The parts of the doc-comment example. */
  lemma DocExampleParts(stringify: Value -> string)
    ensures QueryParts([Prop("name", Str("John")), Prop("age", Num(30)), Prop("tags", Arr([Str("a"), Str("b")]))],
                       QueryOptions(true, true), Verbatim, stringify)
         == ["name=John", "age=30", "tags[]=a", "tags[]=b"]
  {
    var opts := QueryOptions(true, true);
    var tags := [Str("a"), Str("b")];
    PrimitiveEntry("name", Str("John"), opts, Verbatim, stringify);
    PrimitiveEntry("age", Num(30), opts, Verbatim, stringify);
    ItemPartsAll("tags[]", tags, true, Verbatim);
    DocPartTexts();
    QueryPartsThree(Prop("name", Str("John")), Prop("age", Num(30)), Prop("tags", Arr(tags)), opts, Verbatim, stringify);
  }

  /** The example of the doc comment: with an encoder that changes none of
      these characters, `{ name: 'John', age: 30, tags: ['a', 'b'] }` gives
      "name=John&age=30&tags[]=a&tags[]=b". */
  lemma DocExample(stringify: Value -> string)
    ensures QueryString(
              Obj([Prop("name", Str("John")), Prop("age", Num(30)), Prop("tags", Arr([Str("a"), Str("b")]))]),
              Undefined, Verbatim, stringify)
         == Normal("name=John&age=30&tags[]=a&tags[]=b")
  {
    var props := [Prop("name", Str("John")), Prop("age", Num(30)), Prop("tags", Arr([Str("a"), Str("b")]))];
    QueryStringOfObject(props, Undefined, QueryOptions(true, true), Verbatim, stringify);
    DocExampleParts(stringify);
    JoinFew("name=John", "age=30", "tags[]=a", "tags[]=b", "&");
    DocExampleText();
  }

  /** The parts of the null-skipping example. */
  lemma NullSkippedParts(stringify: Value -> string)
    ensures QueryParts([Prop("page", Num(1)), Prop("tags", Arr([Str("a"), Str("b")])), Prop("x", Null)],
                       QueryOptions(true, true), Verbatim, stringify)
         == ["page=1", "tags[]=a", "tags[]=b"]
  {
    var opts := QueryOptions(true, true);
    var tags := [Str("a"), Str("b")];
    PrimitiveEntry("page", Num(1), opts, Verbatim, stringify);
    ItemPartsAll("tags[]", tags, true, Verbatim);
    PagePartText();
    DocPartTexts();
    QueryPartsThree(Prop("page", Num(1)), Prop("tags", Arr(tags)), Prop("x", Null), opts, Verbatim, stringify);
  }

  /** A null value is skipped by default: `{ page: 1, tags: ['a', 'b'], x: null }`
      gives "page=1&tags[]=a&tags[]=b". */
  lemma NullSkippedExample(stringify: Value -> string)
    ensures QueryString(
              Obj([Prop("page", Num(1)), Prop("tags", Arr([Str("a"), Str("b")])), Prop("x", Null)]),
              Undefined, Verbatim, stringify)
         == Normal("page=1&tags[]=a&tags[]=b")
  {
    var props := [Prop("page", Num(1)), Prop("tags", Arr([Str("a"), Str("b")])), Prop("x", Null)];
    QueryStringOfObject(props, Undefined, QueryOptions(true, true), Verbatim, stringify);
    NullSkippedParts(stringify);
    JoinFew("page=1", "tags[]=a", "tags[]=b", "", "&");
    NullSkippedText();
  }

  /** The parts of the repeat-format example. */
  lemma RepeatFormatParts(stringify: Value -> string)
    ensures QueryParts([Prop("tags", Arr([Str("a"), Null]))], QueryOptions(false, false), Verbatim, stringify)
         == ["tags=a", "tags=null"]
  {
    var opts := QueryOptions(false, false);
    var tags := [Str("a"), Null];
    ItemPartsAll("tags", tags, false, Verbatim);
    assert Verbatim("tags") + "=" + Verbatim(ToJsString(Str("a"))) == "tags" + "=" + "a" == "tags=a";
    assert Verbatim("tags") + "=" + Verbatim(ToJsString(Null)) == "tags" + "=" + "null" == "tags=null";
    assert [Prop("tags", Arr(tags))][..0] == [];
  }

  lemma RepeatOptions()
    ensures ReadOptions(Obj([Prop("skipNull", Bool(false)), Prop("arrayFormat", Str("repeat"))]))
         == Normal(QueryOptions(false, false))
  {
    var options := Obj([Prop("skipNull", Bool(false)), Prop("arrayFormat", Str("repeat"))]);
    assert OptGet(options, "arrayFormat") == Str("repeat");
  }

  /** `arrayFormat: 'repeat'` repeats the bare key, and `skipNull: false`
      keeps a null item as "null". */
  lemma RepeatFormatExample(stringify: Value -> string)
    ensures QueryString(
              Obj([Prop("tags", Arr([Str("a"), Null]))]),
              Obj([Prop("skipNull", Bool(false)), Prop("arrayFormat", Str("repeat"))]), Verbatim, stringify)
         == Normal("tags=a&tags=null")
  {
    var options := Obj([Prop("skipNull", Bool(false)), Prop("arrayFormat", Str("repeat"))]);
    RepeatOptions();
    var props := [Prop("tags", Arr([Str("a"), Null]))];
    QueryStringOfObject(props, options, QueryOptions(false, false), Verbatim, stringify);
    RepeatFormatParts(stringify);
    JoinFew("tags=a", "tags=null", "", "", "&");
    RepeatFormatText();
  }

  // ---------------------------------------------------------------- text helpers

  /** `truncateText(text, maxLength = 50)`. `substring` takes a negative
      length as 0. */
  function TruncateText(text: string, maxLength: int := 50): (r: string)
    ensures text == "" ==> r == ""
    ensures |text| <= maxLength ==> r == text
    ensures text != "" && |text| > maxLength ==>
      var n := if maxLength < 0 then 0 else maxLength;
      && |r| == n + 3
      && r[..n] == text[..n]
      && r[n..] == "..."
  {
    if text == "" then ""
    else if |text| <= maxLength then text
    else text[..if maxLength < 0 then 0 else maxLength] + "..."
  }

  /** Truncating again with the same limit changes nothing. */
  lemma TruncateTextIdempotent(text: string, maxLength: int)
    ensures TruncateText(TruncateText(text, maxLength), maxLength) == TruncateText(text, maxLength)
  {
    var r := TruncateText(text, maxLength);
    if text != "" && |text| > maxLength {
      var n := if maxLength < 0 then 0 else maxLength;
      assert r == r[..n] + r[n..];
      assert TruncateText(r, maxLength) == r[..n] + "...";
    }
  }

  /** `getInitials(name)`: the trimmed name split on ' ', then the first
      character of the first part, and of the last part when there are
      several, upper-cased. */
  function GetInitials(name: string): (r: string)
    ensures |r| <= 2
  {
    if name == "" then ""
    else
      var parts := Split(Trim(name), ' ');
      if |parts| == 1 then ToUpper(FirstChar(parts[0]))
      else ToUpper(FirstChar(parts[0]) + FirstChar(parts[|parts| - 1]))
  }

  /** What the initials are in terms of the trimmed name t: none for a blank
      name; one letter for one word; with a space, exactly two: the first
      character of t and the character after its last space. */
  lemma GetInitialsShape(name: string)
    ensures var t := Trim(name); var r := GetInitials(name);
      && (t == "" ==> r == "")
      && (t != "" && ' ' !in t ==> r == [UpperChar(t[0])])
      && (' ' in t ==>
            && |r| == 2 && r[0] == UpperChar(t[0])
            && exists k :: 0 < k < |t| && t[k - 1] == ' ' && ' ' !in t[k..] && r[1] == UpperChar(t[k]))
  {
    var t := Trim(name);
    var parts := Split(t, ' ');
    TrimShape(name);
    CountZero(t, ' ');
    if name == "" {
      assert t == "";
    } else if t == "" {
    } else if ' ' !in t {
      assert parts == [t] by {
        JoinSplit(t, ' ');
      }
    } else {
      GetInitialsSpaced(name);
    }
  }

  /** With a space inside the trimmed name, the initials are the first
      character and the character after the last space, upper-cased. */
  lemma GetInitialsSpaced(name: string)
    requires ' ' in Trim(name)
    ensures var t := Trim(name); var r := GetInitials(name);
      && |r| == 2 && r[0] == UpperChar(t[0])
      && exists k :: 0 < k < |t| && t[k - 1] == ' ' && ' ' !in t[k..] && r[1] == UpperChar(t[k])
  {
    var t := Trim(name);
    var parts := Split(t, ' ');
    TrimShape(name);
    CountZero(t, ' ');
    assert name != "";
    SplitHead(t, ' ');
    SplitLastNonEmpty(t, ' ');
    SplitLastPart(t, ' ');
    var last := parts[|parts| - 1];
    var k :| 0 < k <= |t| && t[k - 1] == ' ' && t[k..] == last && ' ' !in t[k..];
    assert t[k] == last[0];
    assert GetInitials(name) == ToUpper(FirstChar(parts[0]) + FirstChar(last));
  }

  // ---------------------------------------------------------------- isEmpty

  /** `isEmpty(obj)`: null and undefined are empty, an array by its length, an
      object by its own keys; any other value (including "") is not. */
  function IsEmpty(v: Value): (r: bool)
    ensures r <==> Nullish(v) || ((v.Arr? || v.Obj?) && OwnProps(v) == [])
    ensures v.Str? || v.Num? || v.Bool? || v.Func? ==> !r
  {
    match v
    case Undefined => true
    case Null => true
    case Arr(items) => |items| == 0
    case Obj(props) => |props| == 0
    case _ => false
  }
}
