/**
 * The trigger descriptor that `triggerValue` (execute.ts) writes into the generated entry
 * script: `undefined` without a trigger name, otherwise an object literal with a `name`,
 * an optional `request` and optional `formValues` property.
 *
 * `JSON.stringify` and template interpolation are not modelled; they enter as the two
 * functions of an `Encoder`. The literal is kept as a sequence of properties and the text
 * between them, so that its shape can be stated.
 */
module Trigger {

  import opened Common

  datatype HttpRequest = HttpRequest(searchParams: seq<(string, string)>, headers: seq<(string, string)>, jsonBody: Json)

  /** One submitted form field: its code, its field type name and its value. */
  datatype FormValue = FormValue(code: string, fieldType: string, value: Json)

  /** `JSON.stringify(v)` and the text `${v}` of a value inside a template literal. */
  datatype Encoder = Encoder(stringify: Json -> string, interpolate: Json -> string)

  /** A piece of an object literal: a property `key: value`, or the text between properties. */
  datatype Part = Property(key: string, value: string) | Gap(text: string)

  function PartText(p: Part): string
  {
    match p
    case Property(k, v) => k + ": " + v
    case Gap(t) => t
  }

  function Render(parts: seq<Part>): string
  {
    if parts == [] then "" else PartText(parts[0]) + Render(parts[1..])
  }

  lemma {:induction false} RenderAppend(a: seq<Part>, b: seq<Part>)
    ensures Render(a + b) == Render(a) + Render(b)
  {
    if a == [] {
      assert a + b == b;
    } else {
      assert (a + b)[0] == a[0];
      assert (a + b)[1..] == a[1..] + b;
      RenderAppend(a[1..], b);
    }
  }

  /** The property keys of a literal, in order. */
  function Keys(parts: seq<Part>): seq<string>
  {
    if parts == [] then []
    else (if parts[0].Property? then [parts[0].key] else []) + Keys(parts[1..])
  }

  lemma {:induction false} KeysAppend(a: seq<Part>, b: seq<Part>)
    ensures Keys(a + b) == Keys(a) + Keys(b)
  {
    if a == [] {
      assert a + b == b;
    } else {
      assert (a + b)[0] == a[0];
      assert (a + b)[1..] == a[1..] + b;
      KeysAppend(a[1..], b);
    }
  }

  /**
   * Every two consecutive properties have a comma in the text between them, as a JavaScript
   * object literal requires. `open` says a property was seen since which no comma came.
   */
  predicate CommaSeparated(parts: seq<Part>, open: bool)
  {
    if parts == [] then true
    else match parts[0]
      case Gap(t) => CommaSeparated(parts[1..], open && ',' !in t)
      case Property(_, _) => !open && CommaSeparated(parts[1..], true)
  }

  predicate IsDateField(fieldType: string)
  {
    fieldType == "Date" || fieldType == "DateTime"
  }

  /** Date and DateTime values are placed raw inside `new Date(...)`; every other value is JSON-encoded. */
  function FormEntryValue(fv: FormValue, enc: Encoder): string
  {
    if IsDateField(fv.fieldType) then "new Date(" + enc.interpolate(fv.value) + ")" else enc.stringify(fv.value)
  }

  /** One computed-key entry `[code]: value` of the `formValues` literal. */
  function FormEntry(fv: FormValue, enc: Encoder): string
  {
    "[" + enc.stringify(JString(fv.code)) + "]: " + FormEntryValue(fv, enc)
  }

  function FormEntries(fvs: seq<FormValue>, enc: Encoder): (r: seq<string>)
    ensures |r| == |fvs|
    ensures forall k :: 0 <= k < |fvs| ==> r[k] == FormEntry(fvs[k], enc)
  {
    if fvs == [] then []
    else
      var rest := FormEntries(fvs[1..], enc);
      var r := [FormEntry(fvs[0], enc)] + rest;
      assert forall k :: 0 <= k < |fvs| ==> r[k] == FormEntry(fvs[k], enc) by {
        forall k | 1 <= k < |fvs| ensures r[k] == FormEntry(fvs[k], enc) {
          assert r[k] == rest[k - 1] && fvs[1..][k - 1] == fvs[k];
        }
      }
      r
  }

  /** `${array}` joins the elements with commas. */
  function JoinWithCommas(xs: seq<string>): string
  {
    if xs == [] then "" else if |xs| == 1 then xs[0] else xs[0] + "," + JoinWithCommas(xs[1..])
  }

  /** Joining loses no element: each one appears in the joined text. */
  lemma {:induction false} JoinKeepsEach(xs: seq<string>)
    ensures forall k :: 0 <= k < |xs| ==> Contains(JoinWithCommas(xs), xs[k])
  {
    if |xs| == 1 {
      ContainsMiddle("", xs[0], "");
      assert "" + xs[0] + "" == xs[0];
    } else if |xs| > 1 {
      var rest := JoinWithCommas(xs[1..]);
      JoinKeepsEach(xs[1..]);
      ContainsMiddle("", xs[0], "," + rest);
      assert "" + xs[0] + ("," + rest) == JoinWithCommas(xs);
      forall k | 1 <= k < |xs|
        ensures Contains(JoinWithCommas(xs), xs[k])
      {
        assert xs[1..][k - 1] == xs[k];
        ContainsWithin(xs[0] + ",", rest, "", xs[k]);
        assert xs[0] + "," + rest + "" == JoinWithCommas(xs);
      }
    }
  }

  /** The `formValues` object literal: braces around the entries, and every form value's entry inside. */
  function FormValuesLiteral(fvs: seq<FormValue>, enc: Encoder): (r: string)
    ensures |r| >= 2 && r[0] == '{' && r[|r| - 1] == '}'
    ensures forall k :: 0 <= k < |fvs| ==> Contains(r, FormEntry(fvs[k], enc))
  {
    var entries := FormEntries(fvs, enc);
    var joined := JoinWithCommas(entries);
    JoinKeepsEach(entries);
    assert forall k :: 0 <= k < |fvs| ==> Contains(joined, entries[k]) && entries[k] == FormEntry(fvs[k], enc);
    assert forall t :: Contains(joined, t) ==> Contains("{" + joined + "}", t) by {
      forall t | Contains(joined, t) ensures Contains("{" + joined + "}", t) {
        ContainsWithin("{", joined, "}", t);
      }
    }
    "{" + joined + "}"
  }

  function PairsJson(ps: seq<(string, string)>): Json
  {
    JArray(seq(|ps|, k requires 0 <= k < |ps| => JArray([JString(ps[k].0), JString(ps[k].1)])))
  }

  function HeadersJson(hs: seq<(string, string)>): Json
  {
    JObject(seq(|hs|, k requires 0 <= k < |hs| => (hs[k].0, JString(hs[k].1))))
  }

  const SearchParamsHead: string := "{\n  searchParams: new URLSearchParams("
  const HeadersHead: string := "),\n  headers: new Headers("
  const JsonBodyHead: string := "),\n  jsonBody: "
  const RequestTail: string := ",\n}"

  /** The second, fourth and sixth of seven joined pieces occur in the joined text. */
  lemma ContainsThree(p: string, a: string, q: string, b: string, u: string, c: string, w: string)
    ensures Contains(p + a + q + b + u + c + w, a)
    ensures Contains(p + a + q + b + u + c + w, b)
    ensures Contains(p + a + q + b + u + c + w, c)
  {
    ContainsMiddle(p, a, q + b + u + c + w);
    assert p + a + (q + b + u + c + w) == p + a + q + b + u + c + w;
    ContainsMiddle(p + a + q, b, u + c + w);
    assert p + a + q + b + (u + c + w) == p + a + q + b + u + c + w;
    ContainsMiddle(p + a + q + b + u, c, w);
  }

  /** Seven joined pieces start as the first one does and end as the last one does. */
  lemma EndsOfSeven(p: string, a: string, q: string, b: string, u: string, c: string, w: string)
    requires |p| >= 1 && |w| >= 2
    ensures var t := p + a + q + b + u + c + w;
            t[0] == p[0] && t[|t| - 2..] == w[|w| - 2..]
  {
    var t := p + a + q + b + u + c + w;
    var m := a + q + b + u + c;
    assert t == p + m + w;
    assert t[|t| - 2..] == w[|w| - 2..];
  }

  /**
   * The `request` object literal: it opens with a brace and closes with a line holding only
   * `}`, and carries the encoded search parameters, headers and JSON body.
   */
  function RequestLiteral(req: HttpRequest, enc: Encoder): (r: string)
    ensures |r| >= 2 && r[0] == '{' && r[|r| - 2..] == "\n}"
    ensures Contains(r, enc.stringify(PairsJson(req.searchParams)))
    ensures Contains(r, enc.stringify(HeadersJson(req.headers)))
    ensures Contains(r, enc.stringify(req.jsonBody))
  {
    var sp := enc.stringify(PairsJson(req.searchParams));
    var hd := enc.stringify(HeadersJson(req.headers));
    var jb := enc.stringify(req.jsonBody);
    var r := SearchParamsHead + sp + HeadersHead + hd + JsonBodyHead + jb + RequestTail;
    ContainsThree(SearchParamsHead, sp, HeadersHead, hd, JsonBodyHead, jb, RequestTail);
    EndsOfSeven(SearchParamsHead, sp, HeadersHead, hd, JsonBodyHead, jb, RequestTail);
    assert SearchParamsHead[0] == '{' && RequestTail[|RequestTail| - 2..] == "\n}";
    r
  }

  const Open: string := "{\n    "
  const AfterName: string := ",\n    "
  const Close: string := "\n  }"

  /** A property present only when its value is given. */
  function OptionalProperty(key: string, value: Option<string>): seq<Part>
  {
    if value.Some? then [Property(key, value.value)] else []
  }

  /**
   * The descriptor literal around the `name` value and the optional `request` and
   * `formValues` values; `comma` says whether a comma line separates the last two.
   */
  function Literal(nameText: string, request: Option<string>, formValues: Option<string>, comma: bool): seq<Part>
  {
    [Gap(Open), Property("name", nameText), Gap(AfterName)]
    + OptionalProperty("request", request)
    + (if comma && request.Some? && formValues.Some? then [Gap(AfterName)] else [])
    + OptionalProperty("formValues", formValues)
    + [Gap(Close)]
  }

  function RequestText(req: Option<HttpRequest>, enc: Encoder): Option<string>
  {
    if req.Some? then Some(RequestLiteral(req.value, enc)) else None
  }

  function FormText(fvs: Option<seq<FormValue>>, enc: Encoder): Option<string>
  {
    if fvs.Some? then Some(FormValuesLiteral(fvs.value, enc)) else None
  }

  /** The object literal as execute.ts:28-55 writes it: nothing between `request` and `formValues`. */
  function AsWrittenParts(name: string, req: Option<HttpRequest>, fvs: Option<seq<FormValue>>, enc: Encoder): seq<Part>
  {
    Literal(enc.stringify(JString(name)), RequestText(req, enc), FormText(fvs, enc), false)
  }

  /** The object literal with a comma after `request` when `formValues` follows it. */
  function TriggerParts(name: string, req: Option<HttpRequest>, fvs: Option<seq<FormValue>>, enc: Encoder): seq<Part>
  {
    Literal(enc.stringify(JString(name)), RequestText(req, enc), FormText(fvs, enc), true)
  }

  /** The text of `triggerValue` as written. */
  function AsWrittenTriggerValue(name: Option<string>, req: Option<HttpRequest>, fvs: Option<seq<FormValue>>, enc: Encoder): (r: string)
    ensures name == None ==> r == "undefined"
    ensures name.Some? ==> Open + "name: " + enc.stringify(JString(name.value)) + AfterName <= r
    ensures name.Some? ==> |r| >= |Close| && r[|r| - |Close|..] == Close
  {
    if name.Some? then
      AsWrittenPartsText(name.value, req, fvs, enc);
      Render(AsWrittenParts(name.value, req, fvs, enc))
    else "undefined"
  }

  /** The text of the trigger descriptor with the comma restored. */
  function TriggerValue(name: Option<string>, req: Option<HttpRequest>, fvs: Option<seq<FormValue>>, enc: Encoder): (r: string)
    ensures name == None ==> r == "undefined"
    ensures name.Some? ==> Open + "name: " + enc.stringify(JString(name.value)) + AfterName <= r
    ensures name.Some? ==> |r| >= |Close| && r[|r| - |Close|..] == Close
    ensures name.Some? && req.Some? ==> Contains(r, "request: " + RequestLiteral(req.value, enc))
    ensures name.Some? && fvs.Some? ==> Contains(r, "formValues: " + FormValuesLiteral(fvs.value, enc))
  {
    if name.Some? then
      TriggerPartsText(name.value, req, fvs, enc);
      PropertiesInText(name.value, req, fvs, enc);
      Render(TriggerParts(name.value, req, fvs, enc))
    else "undefined"
  }

  lemma PropertiesInText(name: string, req: Option<HttpRequest>, fvs: Option<seq<FormValue>>, enc: Encoder)
    ensures req.Some? ==> Contains(Render(TriggerParts(name, req, fvs, enc)), "request: " + RequestLiteral(req.value, enc))
    ensures fvs.Some? ==> Contains(Render(TriggerParts(name, req, fvs, enc)), "formValues: " + FormValuesLiteral(fvs.value, enc))
  {
    TriggerPartsText(name, req, fvs, enc);
    ContainsPieces(Open + "name: " + enc.stringify(JString(name)) + AfterName,
                   if req.Some? then "request: " + RequestLiteral(req.value, enc) else "",
                   if req.Some? && fvs.Some? then AfterName else "",
                   if fvs.Some? then "formValues: " + FormValuesLiteral(fvs.value, enc) else "",
                   Close);
  }

  /** The second and the fourth of five joined pieces occur in the joined text. */
  lemma ContainsPieces(a: string, b: string, c: string, d: string, e: string)
    ensures Contains(a + b + c + d + e, b) && Contains(a + b + c + d + e, d)
  {
    ContainsMiddle(a, b, c + d + e);
    assert a + b + (c + d + e) == a + b + c + d + e;
    ContainsMiddle(a + b + c, d, e);
  }

  /**
   * A literal ending in a line `}`, followed by a key and then a literal opening with `{`,
   * leaves `}`, the text between, the key and `{` in a row.
   */
  lemma Junction(h: string, k1: string, rl: string, sep: string, k2: string, fl: string, tail: string)
    requires |rl| >= 2 && rl[|rl| - 2..] == "\n}" && |fl| >= 1 && fl[0] == '{'
    ensures Contains(h + (k1 + rl) + sep + (k2 + fl) + tail, "\n}" + sep + k2 + "{")
  {
    var p := h + k1 + rl[..|rl| - 2];
    var q := fl[1..] + tail;
    assert rl == rl[..|rl| - 2] + "\n}";
    assert fl == "{" + fl[1..];
    assert h + (k1 + rl) + sep + (k2 + fl) + tail == p + ("\n}" + sep + k2 + "{") + q;
    ContainsMiddle(p, "\n}" + sep + k2 + "{", q);
  }

  lemma JunctionAdjacent(h: string, k1: string, rl: string, k2: string, fl: string, tail: string)
    requires |rl| >= 2 && rl[|rl| - 2..] == "\n}" && |fl| >= 1 && fl[0] == '{'
    ensures Contains(h + (k1 + rl) + (k2 + fl) + tail, "\n}" + k2 + "{")
  {
    Junction(h, k1, rl, "", k2, fl, tail);
    assert h + (k1 + rl) + "" + (k2 + fl) + tail == h + (k1 + rl) + (k2 + fl) + tail;
    assert "\n}" + "" + k2 + "{" == "\n}" + k2 + "{";
  }

  lemma RenderSingle(p: Part)
    ensures Render([p]) == PartText(p)
  {
    assert [p][1..] == [];
  }

  lemma RenderThree(p: Part, q: Part, u: Part)
    ensures Render([p, q, u]) == PartText(p) + PartText(q) + PartText(u)
  {
    assert [p, q, u][1..] == [q, u] && [q, u][1..] == [u];
    RenderSingle(u);
  }

  lemma KeysSingle(p: Part)
    ensures Keys([p]) == (if p.Property? then [p.key] else [])
  {
    assert [p][1..] == [];
  }

  lemma KeysThree(p: Part, q: Part, u: Part)
    ensures Keys([p, q, u]) == Keys([p]) + Keys([q]) + Keys([u])
  {
    assert [p, q, u][1..] == [q, u] && [q, u][1..] == [u];
    KeysSingle(p);
    KeysSingle(q);
    KeysSingle(u);
  }

  lemma KeysOfFive(a: seq<Part>, b: seq<Part>, c: seq<Part>, d: seq<Part>, e: seq<Part>)
    ensures Keys(a + b + c + d + e) == Keys(a) + Keys(b) + Keys(c) + Keys(d) + Keys(e)
  {
    KeysAppend(a, b);
    KeysAppend(a + b, c);
    KeysAppend(a + b + c, d);
    KeysAppend(a + b + c + d, e);
  }

  lemma RenderOptional(key: string, value: Option<string>)
    ensures Render(OptionalProperty(key, value)) == (if value.Some? then key + ": " + value.value else "")
  {
    if value.Some? { RenderSingle(Property(key, value.value)); }
  }

  lemma KeysOptional(key: string, value: Option<string>)
    ensures Keys(OptionalProperty(key, value)) == (if value.Some? then [key] else [])
  {
    if value.Some? { KeysSingle(Property(key, value.value)); }
  }

  /** The text of a literal: its pieces in order. */
  lemma LiteralRenders(nameText: string, request: Option<string>, formValues: Option<string>, comma: bool)
    ensures Render(Literal(nameText, request, formValues, comma)) ==
            Open + "name: " + nameText + AfterName
            + (if request.Some? then "request: " + request.value else "")
            + (if comma && request.Some? && formValues.Some? then AfterName else "")
            + (if formValues.Some? then "formValues: " + formValues.value else "")
            + Close
  {
    var head := [Gap(Open), Property("name", nameText), Gap(AfterName)];
    var rp, fp := OptionalProperty("request", request), OptionalProperty("formValues", formValues);
    var sep: seq<Part> := if comma && request.Some? && formValues.Some? then [Gap(AfterName)] else [];
    assert "name" + ": " == "name: " && "request" + ": " == "request: " && "formValues" + ": " == "formValues: ";
    assert Render(head) == Open + "name: " + nameText + AfterName by {
      RenderThree(Gap(Open), Property("name", nameText), Gap(AfterName));
      assert Open + ("name" + ": " + nameText) == Open + "name: " + nameText;
    }
    assert Render(rp) == (if request.Some? then "request: " + request.value else "") by {
      RenderOptional("request", request);
    }
    assert Render(fp) == (if formValues.Some? then "formValues: " + formValues.value else "") by {
      RenderOptional("formValues", formValues);
    }
    assert Render(sep) == (if comma && request.Some? && formValues.Some? then AfterName else "") by {
      if sep != [] { RenderSingle(Gap(AfterName)); }
    }
    RenderSingle(Gap(Close));
    RenderAppend(head, rp);
    RenderAppend(head + rp, sep);
    RenderAppend(head + rp + sep, fp);
    RenderAppend(head + rp + sep + fp, [Gap(Close)]);
  }

  /** The keys of a literal: `name`, then each optional property that is given. */
  lemma LiteralKeys(nameText: string, request: Option<string>, formValues: Option<string>, comma: bool)
    ensures Keys(Literal(nameText, request, formValues, comma)) ==
            ["name"] + (if request.Some? then ["request"] else []) + (if formValues.Some? then ["formValues"] else [])
  {
    var head := [Gap(Open), Property("name", nameText), Gap(AfterName)];
    var rp, fp := OptionalProperty("request", request), OptionalProperty("formValues", formValues);
    var sep: seq<Part> := if comma && request.Some? && formValues.Some? then [Gap(AfterName)] else [];
    assert Literal(nameText, request, formValues, comma) == head + rp + sep + fp + [Gap(Close)];
    assert Keys(head) == ["name"] by { KeysThree(Gap(Open), Property("name", nameText), Gap(AfterName)); }
    KeysOptional("request", request);
    KeysOptional("formValues", formValues);
    assert Keys(sep) == [] by { if sep != [] { KeysSingle(Gap(AfterName)); } }
    KeysSingle(Gap(Close));
    KeysOfFive(head, rp, sep, fp, [Gap(Close)]);
    var x := ["name"] + Keys(rp);
    assert x + [] == x;
    assert x + Keys(fp) + [] == x + Keys(fp);
  }

  /** With the comma line, every two properties of a literal are comma separated. */
  lemma LiteralCommaSeparated(nameText: string, request: Option<string>, formValues: Option<string>)
    ensures CommaSeparated(Literal(nameText, request, formValues, true), false)
  {
    var mid := OptionalProperty("request", request)
               + (if request.Some? && formValues.Some? then [Gap(AfterName)] else [])
               + OptionalProperty("formValues", formValues) + [Gap(Close)];
    assert Literal(nameText, request, formValues, true) == [Gap(Open), Property("name", nameText), Gap(AfterName)] + mid;
    OptionalTailSeparated(request, formValues);
    HeadSeparated(nameText, mid);
  }

  /** After the name's comma line, the optional properties and the closing brace are comma separated. */
  lemma OptionalTailSeparated(request: Option<string>, formValues: Option<string>)
    ensures CommaSeparated(OptionalProperty("request", request)
                           + (if request.Some? && formValues.Some? then [Gap(AfterName)] else [])
                           + OptionalProperty("formValues", formValues) + [Gap(Close)], false)
  {
    assert ',' in AfterName;
    var tail := [Gap(Close)];
    assert CommaSeparated(tail, true) && CommaSeparated(tail, false);
    var f := OptionalProperty("formValues", formValues) + tail;
    assert CommaSeparated(f, false) by {
      if formValues.Some? { assert f[1..] == tail; }
      else { assert f == tail; }
    }
    var mid := OptionalProperty("request", request) + (if request.Some? && formValues.Some? then [Gap(AfterName)] else []) + f;
    assert CommaSeparated(mid, false) by {
      if request.Some? && formValues.Some? { assert mid[1..] == [Gap(AfterName)] + f; assert mid[1..][1..] == f; }
      else if request.Some? { assert mid[1..] == f; assert f == tail; }
      else { assert mid == f; }
    }
    assert OptionalProperty("request", request)
           + (if request.Some? && formValues.Some? then [Gap(AfterName)] else [])
           + OptionalProperty("formValues", formValues) + [Gap(Close)] == mid;
  }

  /** The opening brace, the name and its comma line keep a comma separated rest so. */
  lemma HeadSeparated(nameText: string, rest: seq<Part>)
    requires CommaSeparated(rest, false)
    ensures CommaSeparated([Gap(Open), Property("name", nameText), Gap(AfterName)] + rest, false)
  {
    assert ',' in AfterName;
    var ps := [Gap(Open), Property("name", nameText), Gap(AfterName)] + rest;
    assert ps[2..] == [Gap(AfterName)] + rest && ps[2..][1..] == rest;
    assert CommaSeparated(ps[2..], true);
    assert ps[1..][1..] == ps[2..];
    assert CommaSeparated(ps[1..], false);
    assert ps[0] == Gap(Open);
  }

  /** Without the comma line, a literal holding both optional properties is not comma separated. */
  lemma LiteralMissesComma(nameText: string, request: string, formValues: string)
    ensures !CommaSeparated(Literal(nameText, Some(request), Some(formValues), false), false)
  {
    var ps := Literal(nameText, Some(request), Some(formValues), false);
    assert ',' in AfterName;
    assert ps == [Gap(Open), Property("name", nameText), Gap(AfterName),
                  Property("request", request), Property("formValues", formValues), Gap(Close)];
    assert !CommaSeparated(ps[4..], true);
    assert ps[3..][1..] == ps[4..];
    assert !CommaSeparated(ps[3..], false);
    assert ps[2..][1..] == ps[3..];
    assert !CommaSeparated(ps[2..], true);
    assert ps[1..][1..] == ps[2..];
    assert !CommaSeparated(ps[1..], false);
    assert ps[0] == Gap(Open);
  }

  /** The properties present: `name`, then `request` exactly when given, then `formValues` exactly when given. */
  lemma TriggerKeys(name: string, req: Option<HttpRequest>, fvs: Option<seq<FormValue>>, enc: Encoder)
    ensures Keys(TriggerParts(name, req, fvs, enc)) ==
            ["name"] + (if req.Some? then ["request"] else []) + (if fvs.Some? then ["formValues"] else [])
  {
    LiteralKeys(enc.stringify(JString(name)), RequestText(req, enc), FormText(fvs, enc), true);
  }

  /** When a request and form values are both given, the literal as written lacks a comma between them. */
  lemma AsWrittenMissesComma(name: string, req: Option<HttpRequest>, fvs: Option<seq<FormValue>>, enc: Encoder)
    requires req.Some? && fvs.Some?
    ensures !CommaSeparated(AsWrittenParts(name, req, fvs, enc), false)
  {
    LiteralMissesComma(enc.stringify(JString(name)), RequestLiteral(req.value, enc), FormValuesLiteral(fvs.value, enc));
  }

  /** The corrected literal separates every two properties by a comma, for all inputs. */
  lemma TriggerPartsCommaSeparated(name: string, req: Option<HttpRequest>, fvs: Option<seq<FormValue>>, enc: Encoder)
    ensures CommaSeparated(TriggerParts(name, req, fvs, enc), false)
  {
    LiteralCommaSeparated(enc.stringify(JString(name)), RequestText(req, enc), FormText(fvs, enc));
  }

  /** Outside the case of both a request and form values, the correction changes nothing. */
  lemma CorrectionOnlyWhenBoth(name: Option<string>, req: Option<HttpRequest>, fvs: Option<seq<FormValue>>, enc: Encoder)
    requires !(req.Some? && fvs.Some?)
    ensures TriggerValue(name, req, fvs, enc) == AsWrittenTriggerValue(name, req, fvs, enc)
  {
    if name.Some? {
      assert TriggerParts(name.value, req, fvs, enc) == AsWrittenParts(name.value, req, fvs, enc);
    }
  }

  /** The concrete text of the corrected descriptor for a named trigger. */
  lemma TriggerPartsText(name: string, req: Option<HttpRequest>, fvs: Option<seq<FormValue>>, enc: Encoder)
    ensures Render(TriggerParts(name, req, fvs, enc)) ==
            Open + "name: " + enc.stringify(JString(name)) + AfterName
            + (if req.Some? then "request: " + RequestLiteral(req.value, enc) else "")
            + (if req.Some? && fvs.Some? then AfterName else "")
            + (if fvs.Some? then "formValues: " + FormValuesLiteral(fvs.value, enc) else "")
            + Close
  {
    LiteralRenders(enc.stringify(JString(name)), RequestText(req, enc), FormText(fvs, enc), true);
  }

  /** The concrete text of the descriptor as written for a named trigger. */
  lemma AsWrittenPartsText(name: string, req: Option<HttpRequest>, fvs: Option<seq<FormValue>>, enc: Encoder)
    ensures Render(AsWrittenParts(name, req, fvs, enc)) ==
            Open + "name: " + enc.stringify(JString(name)) + AfterName
            + (if req.Some? then "request: " + RequestLiteral(req.value, enc) else "")
            + (if fvs.Some? then "formValues: " + FormValuesLiteral(fvs.value, enc) else "")
            + Close
  {
    var n, rq, fv := enc.stringify(JString(name)), RequestText(req, enc), FormText(fvs, enc);
    LiteralRenders(n, rq, fv, false);
    var h := Open + "name: " + n + AfterName + (if rq.Some? then "request: " + rq.value else "");
    assert h + "" == h;
  }

  /**
   * In the text as written, a request literal's closing brace runs straight into the
   * `formValues` key: the generated entry script holds `}formValues: {`.
   */
  lemma AsWrittenTextMissesComma(name: string, req: HttpRequest, fvs: seq<FormValue>, enc: Encoder)
    ensures Contains(AsWrittenTriggerValue(Some(name), Some(req), Some(fvs), enc), "\n}" + "formValues: " + "{")
  {
    var h := Open + "name: " + enc.stringify(JString(name)) + AfterName;
    var rl, fl := RequestLiteral(req, enc), FormValuesLiteral(fvs, enc);
    var t := AsWrittenTriggerValue(Some(name), Some(req), Some(fvs), enc);
    assert t == h + ("request: " + rl) + ("formValues: " + fl) + Close by {
      AsWrittenPartsText(name, Some(req), Some(fvs), enc);
    }
    var w := "\n}" + "formValues: " + "{";
    assert Contains(t, w) by {
      JunctionAdjacent(h, "request: ", rl, "formValues: ", fl, Close);
    }
  }

  /** In the corrected text, the request literal is followed by a comma before the `formValues` key. */
  lemma CorrectedTextHasComma(name: string, req: HttpRequest, fvs: seq<FormValue>, enc: Encoder)
    ensures Contains(TriggerValue(Some(name), Some(req), Some(fvs), enc), "\n}" + AfterName + "formValues: " + "{")
  {
    TriggerPartsText(name, Some(req), Some(fvs), enc);
    Junction(Open + "name: " + enc.stringify(JString(name)) + AfterName, "request: ", RequestLiteral(req, enc),
             AfterName, "formValues: ", FormValuesLiteral(fvs, enc), Close);
  }
}
