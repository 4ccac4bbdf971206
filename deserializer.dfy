/**
 * The feed decoder: turns the API's JSON response into the list of news items.
 * Only items of type "basico" are kept, in input order; newlines are removed
 * from the optional text fields; the publication timestamp is cut to
 * millisecond precision and converted to epoch milliseconds.
 */
module Deserializer {
  import opened Options
  import opened Json
  import opened Model
  import DateUtils

  /** The only item type shown by the app. */
  const BASICO: string := "basico"

  /** `s.replace("\n", "")`. */
  function StripNewlines(s: string): (r: string)
    ensures '\n' !in r
    ensures forall c :: c != '\n' ==> multiset(r)[c] == multiset(s)[c]
    ensures '\n' !in s ==> r == s
  {
    if s == [] then []
    else
      assert s == [s[0]] + s[1..];
      (if s[0] == '\n' then [] else [s[0]]) + StripNewlines(s[1..])
  }

  /** Stripping distributes over concatenation, so the kept characters stay in order. */
  lemma {:induction false} StripAppend(a: string, b: string)
    ensures StripNewlines(a + b) == StripNewlines(a) + StripNewlines(b)
  {
    if a == [] {
      assert a + b == b;
    } else {
      var head := if a[0] == '\n' then [] else [a[0]];
      assert (a + b)[0] == a[0] && (a + b)[1..] == a[1..] + b;
      assert StripNewlines(a + b) == head + StripNewlines(a[1..] + b);
      StripAppend(a[1..], b);
      assert StripNewlines(a) == head + StripNewlines(a[1..]);
      assert head + (StripNewlines(a[1..]) + StripNewlines(b)) == (head + StripNewlines(a[1..])) + StripNewlines(b);
    }
  }

  /** A newline is dropped; any other character is kept. */
  lemma StripOne(c: char)
    ensures StripNewlines([c]) == if c == '\n' then [] else [c]
  {
  }

  /** Stripping twice is stripping once. */
  lemma StripIdempotent(s: string)
    ensures StripNewlines(StripNewlines(s)) == StripNewlines(s)
  {
  }

  /** An object field with a string inside, such as `content.image.url`: absent means null. */
  function NestedText(content: map<string, Json>, outer: string, inner: string): (r: Result<Option<string>, Exception>)
    ensures outer !in content ==> r == Ok(None)
    ensures outer in content ==>
      (r.Ok? <==> ObjectAt(content, outer).Ok? && StringAt(ObjectAt(content, outer).value, inner).Ok?)
    ensures r.Ok? && r.value.Some? ==> '\n' !in r.value.value
    ensures outer in content && r.Ok? ==>
      exists s :: ObjectAt(content, outer).Ok? && StringAt(ObjectAt(content, outer).value, inner) == Ok(s)
        && r.value == Some(StripNewlines(s))
  {
    if outer !in content then Ok(None)
    else
      var obj :- AsObject(content[outer]);
      var s :- StringAt(obj, inner);
      Ok(Some(StripNewlines(s)))
  }

  /** A string field of `content`, such as `content.title`: absent means null. */
  function PlainText(content: map<string, Json>, key: string): (r: Result<Option<string>, Exception>)
    ensures key !in content ==> r == Ok(None)
    ensures key in content ==> (r.Ok? <==> AsString(content[key]).Ok?)
    ensures key in content && r.Ok? ==> r.value == Some(StripNewlines(AsString(content[key]).value))
  {
    if key !in content then Ok(None)
    else
      var s :- AsString(content[key]);
      Ok(Some(StripNewlines(s)))
  }

  /** The timestamp with its last seven characters (six fraction digits and 'Z') replaced by 'Z'. */
  function CutTimestamp(timestamp: string): (r: Result<string, Exception>)
    ensures r.Ok? <==> |timestamp| >= 7
    ensures r.Ok? ==> r.value == timestamp[..|timestamp| - 7] + "Z"
  {
    if |timestamp| < 7 then Err(StringIndexOutOfBounds)
    else Ok(timestamp[..|timestamp| - 7] + "Z")
  }

  /** The item's `publication`, converted to epoch milliseconds; absent means null. */
  function Publication(item: map<string, Json>): (r: Result<Option<int>, Exception>)
    ensures "publication" !in item ==> r == Ok(None)
  {
    if "publication" !in item then Ok(None)
    else
      var timestamp :- AsString(item["publication"]);
      var cut :- CutTimestamp(timestamp);
      match DateUtils.GetUtcFromTimestamp(cut)
      case Err(_) => Err(Parse)
      case Ok(millis) => Ok(Some(millis))
  }

  /** True when the item's `type` reads as "basico". */
  predicate IsBasico(item: Json)
  {
    item.JObject? && StringAt(item.fields, "type") == Ok(BASICO)
  }

  /** No text field of the record holds a newline. */
  predicate NoNewlines(n: News)
  {
    && (n.image.Some? ==> '\n' !in n.image.value)
    && (n.chapeu.Some? ==> '\n' !in n.chapeu.value)
    && (n.title.Some? ==> '\n' !in n.title.value)
    && (n.summary.Some? ==> '\n' !in n.summary.value)
    && (n.url.Some? ==> '\n' !in n.url.value)
  }

  /** One element of `items`: `Some` record for a "basico" item, `None` for a skipped one. */
  function DecodeItem(item: Json): (r: Result<Option<News>, Exception>)
    ensures r.Ok? && r.value.Some? <==> r.Ok? && IsBasico(item)
    ensures r.Ok? && r.value.Some? ==> StringAt(item.fields, "id") == Ok(r.value.value.id)
    ensures r.Ok? && r.value.Some? ==> NoNewlines(r.value.value)
    ensures r.Ok? && r.value.Some? ==>
      && ObjectAt(item.fields, "content").Ok?
      && var content := ObjectAt(item.fields, "content").value;
         var n := r.value.value;
         && NestedText(content, "image", "url") == Ok(n.image)
         && NestedText(content, "chapeu", "label") == Ok(n.chapeu)
         && PlainText(content, "title") == Ok(n.title)
         && PlainText(content, "summary") == Ok(n.summary)
         && PlainText(content, "url") == Ok(n.url)
         && Publication(item.fields) == Ok(n.publication)
    ensures item.JObject? && StringAt(item.fields, "id").Ok? && StringAt(item.fields, "type").Ok? && !IsBasico(item)
            ==> r == Ok(None)
    ensures IsBasico(item) ==>
      (r.Ok? <==>
        && StringAt(item.fields, "id").Ok?
        && ObjectAt(item.fields, "content").Ok?
        && var content := ObjectAt(item.fields, "content").value;
           && NestedText(content, "image", "url").Ok?
           && NestedText(content, "chapeu", "label").Ok?
           && PlainText(content, "title").Ok?
           && PlainText(content, "summary").Ok?
           && PlainText(content, "url").Ok?
           && Publication(item.fields).Ok?)
    ensures r.Ok? ==> item.JObject? && StringAt(item.fields, "id").Ok? && StringAt(item.fields, "type").Ok?
    ensures item.JObject? && "id" !in item.fields ==> r == Err(NullPointer)
    ensures item.JObject? && "id" in item.fields && AsString(item.fields["id"]).Ok? && "type" !in item.fields
            ==> r == Err(NullPointer)
  {
    var obj :- AsObject(item);
    var id :- StringAt(obj, "id");
    var kind :- StringAt(obj, "type");
    if kind != BASICO then Ok(None)
    else
      var content :- ObjectAt(obj, "content");
      var image :- NestedText(content, "image", "url");
      var chapeu :- NestedText(content, "chapeu", "label");
      var title :- PlainText(content, "title");
      var summary :- PlainText(content, "summary");
      var url :- PlainText(content, "url");
      var publication :- Publication(obj);
      Ok(Some(News(id, image, chapeu, title, summary, url, publication)))
  }

  /** The elements of `items` in order; the first failing element's exception escapes. */
  function DecodeItems(items: seq<Json>): Result<seq<News>, Exception>
  {
    if items == [] then Ok([])
    else
      var init :- DecodeItems(items[..|items| - 1]);
      var last :- DecodeItem(items[|items| - 1]);
      Ok(init + (if last.Some? then [last.value] else []))
  }

  /** The "basico" elements of a sequence, in order. */
  function BasicoItems(items: seq<Json>): (r: seq<Json>)
    ensures |r| <= |items|
  {
    if items == [] then []
    else BasicoItems(items[..|items| - 1]) + (if IsBasico(items[|items| - 1]) then [items[|items| - 1]] else [])
  }

  /** The whole response: `json!!.asJsonObject["items"].asJsonArray`, then every element. */
  function DecodeResponse(json: Option<Json>): Result<NewsFetchResponse, Exception>
  {
    if json.None? then Err(NullPointer)
    else
      var obj :- AsObject(json.value);
      var items :- ObjectArrayAt(obj, "items");
      var news :- DecodeItems(items);
      Ok(NewsFetchResponse(news))
  }

  function ObjectArrayAt(obj: map<string, Json>, key: string): Result<seq<Json>, Exception>
  {
    if key !in obj then Err(NullPointer) else AsArray(obj[key])
  }

  /** A failure in a prefix is the failure of the whole sequence. */
  lemma {:induction false} PrefixFailure(items: seq<Json>, n: nat)
    requires n <= |items| && DecodeItems(items[..n]).Err?
    ensures DecodeItems(items) == DecodeItems(items[..n])
    decreases |items| - n
  {
    if n < |items| {
      assert items[..n + 1][..n] == items[..n];
      PrefixFailure(items, n + 1);
    } else {
      assert items[..n] == items;
    }
  }

  lemma DecodeItemsSnoc(items: seq<Json>, item: Json)
    ensures DecodeItems(items + [item]) ==
      match DecodeItems(items)
      case Err(e) => Err(e)
      case Ok(init) =>
        match DecodeItem(item)
        case Err(e) => Err(e)
        case Ok(last) => Ok(init + (if last.Some? then [last.value] else []))
  {
    assert (items + [item])[..|items|] == items;
  }

  /** One step of the loop: the next element extends the decoded prefix... */
  lemma DecodeStepOk(elements: seq<Json>, i: nat, items: seq<News>, last: Option<News>)
    requires i < |elements| && DecodeItems(elements[..i]) == Ok(items) && DecodeItem(elements[i]) == Ok(last)
    ensures DecodeItems(elements[..i + 1]) == Ok(items + (if last.Some? then [last.value] else []))
  {
    assert elements[..i + 1] == elements[..i] + [elements[i]];
    DecodeItemsSnoc(elements[..i], elements[i]);
  }

  /** ... or its exception is the exception of the whole list. */
  lemma DecodeStepErr(elements: seq<Json>, i: nat, items: seq<News>, e: Exception)
    requires i < |elements| && DecodeItems(elements[..i]) == Ok(items) && DecodeItem(elements[i]) == Err(e)
    ensures DecodeItems(elements) == Err(e)
  {
    var prefix := elements[..i + 1];
    assert prefix[..|prefix| - 1] == elements[..i] && prefix[|prefix| - 1] == elements[i];
    assert DecodeItems(prefix) == Err(e);
    PrefixFailure(elements, i + 1);
  }

  /** `deserialize`: the loop appends each decoded "basico" item to `items`. */
  method Deserialize(json: Option<Json>) returns (r: Result<NewsFetchResponse, Exception>)
    ensures r == DecodeResponse(json)
  {
    if json.None? {
      return Err(NullPointer);
    }
    var obj :- AsObject(json.value);
    var elements :- ObjectArrayAt(obj, "items");
    var items: seq<News> := [];
    for i := 0 to |elements|
      invariant DecodeItems(elements[..i]) == Ok(items)
    {
      var decoded := DecodeItem(elements[i]);
      if decoded.Err? {
        DecodeStepErr(elements, i, items, decoded.error);
        return Err(decoded.error);
      }
      DecodeStepOk(elements, i, items, decoded.value);
      if decoded.value.Some? {
        items := items + [decoded.value.value];
      } else {
        assert items + [] == items;
      }
    }
    assert elements[..|elements|] == elements;
    r := Ok(NewsFetchResponse(items));
  }

  /** Every item decodes, or the first one that cannot makes the whole list fail. */
  lemma {:induction false} DecodeItemsOkIff(items: seq<Json>)
    ensures DecodeItems(items).Ok? <==> forall i :: 0 <= i < |items| ==> DecodeItem(items[i]).Ok?
  {
    if items != [] {
      var init := items[..|items| - 1];
      DecodeItemsOkIff(init);
      assert forall i :: 0 <= i < |init| ==> init[i] == items[i];
    }
  }

  /** The output is the "basico" items, in input order, each decoded; so it is no longer than the input. */
  lemma {:induction false} DecodeItemsKeepsBasico(items: seq<Json>)
    requires DecodeItems(items).Ok?
    ensures var out := DecodeItems(items).value;
      && |out| == |BasicoItems(items)| <= |items|
      && forall k :: 0 <= k < |out| ==> DecodeItem(BasicoItems(items)[k]) == Ok(Some(out[k]))
  {
    if items != [] {
      DecodeItemsKeepsBasico(items[..|items| - 1]);
    }
  }

  /** No decoded record holds a newline in any text field. */
  lemma {:induction false} DecodedRecordsClean(items: seq<Json>)
    requires DecodeItems(items).Ok?
    ensures forall n :: n in DecodeItems(items).value ==> NoNewlines(n)
  {
    if items != [] {
      DecodedRecordsClean(items[..|items| - 1]);
    }
  }

  /** The API sends nine fraction digits; the first three survive, the rest are dropped, not rounded. */
  lemma ApiTimestamp()
    ensures CutTimestamp("2019-06-08T01:50:26.453999999Z") == Ok("2019-06-08T01:50:26.453Z")
    ensures DateUtils.GetUtcFromTimestamp("2019-06-08T01:50:26.453Z") == Ok(1559958626453)
  {
    var api := "2019-06-08T01:50:26.453999999Z";
    assert |api| == 30;
    assert api[..23] == "2019-06-08T01:50:26.453";
    assert api[..23] + "Z" == "2019-06-08T01:50:26.453Z";
    DateUtils.TestVector1();
  }

  /** A present `publication` becomes the epoch value of its cut text; a short one throws. */
  lemma PublicationCases(item: map<string, Json>, timestamp: string)
    requires "publication" in item && item["publication"] == JString(timestamp)
    ensures |timestamp| < 7 ==> Publication(item) == Err(StringIndexOutOfBounds)
    ensures |timestamp| >= 7 ==>
      var cut := timestamp[..|timestamp| - 7] + "Z";
      Publication(item) == match DateUtils.GetUtcFromTimestamp(cut)
                           case Ok(millis) => Ok(Some(millis))
                           case Err(_) => Err(Parse)
  {
  }
}
