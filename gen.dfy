/** codegen/tortoise_model/gen.py: `parse_gen_str`, which turns a line of field specs
    such as `title:char:100 author:fk:Author` into the field names (the choices for
    `__str__`) and the indented field declarations of the model body. */
module Gen {
  import opened PyStr
  import opened OrderedDict
  import opened Utils
  import opened Handlers

  /** What `parse_gen_str` returns: `(field_names, fields_str)`. */
  datatype Parsed = Parsed(fieldNames: seq<string>, fieldsStr: string)

  /** The model name the relation handlers get: the part after the first `.` when
      there is one (`app.Book` and `app.Book.x` both give `Book`), else the whole name.
      It never holds a `.`. */
  function TargetModel(modelName: string): (r: string)
    ensures '.' !in r
    ensures '.' !in modelName ==> r == modelName
    ensures forall c :: c in r ==> c in modelName
    ensures NoBraces(modelName) ==> NoBraces(r)
  {
    if '.' in modelName then
      var parts := Split(modelName, '.');
      SplitPartsFree(modelName, '.');
      assert forall c :: c in parts[1] ==> c in modelName by {
        forall c | c in parts[1] ensures c in modelName {
          SplitChars(modelName, '.', 1, c);
        }
      }
      parts[1]
    else modelName
  }

  /** With the first `.` at `k` and the next one (or the end) at `m`, the relation
      handlers get `modelName[k + 1..m]`. */
  lemma TargetModelSegment(modelName: string, k: nat, m: nat)
    requires k < m <= |modelName| && modelName[k] == '.'
    requires forall j :: 0 <= j < k ==> modelName[j] != '.'
    requires forall j :: k < j < m ==> modelName[j] != '.'
    requires m == |modelName| || modelName[m] == '.'
    ensures TargetModel(modelName) == modelName[k + 1..m]
  {
    SplitSecond(modelName, '.', k, m);
  }

  /** `", ".join(map(tuple_to_str, kv.items()))` */
  function KwArgs(kv: Items): string
  {
    JoinWith(seq(|kv|, i requires 0 <= i < |kv| => TupleToStr(kv[i])), ", ")
  }

  /** `"".join(["  " + x + "\n" for x in lines])` */
  function PadLines(lines: seq<string>): string
    decreases |lines|
  {
    if lines == [] then [] else "  " + lines[0] + "\n" + PadLines(lines[1..])
  }

  /** The text one declaration adds: the template filled with the keyword arguments,
      stripped, and every line indented by two spaces. */
  function Block(d: Decl): string
    requires Holes(d.template, 1)
  {
    PadLines(Split(Strip(Format(d.template, [KwArgs(d.kv)]) + "\n"), '\n'))
  }

  /** Lines without a line break, indented and terminated, split back into the
      indented lines followed by the empty text after the last `\n`. */
  lemma {:induction false} PadLinesSplit(lines: seq<string>)
    requires forall i :: 0 <= i < |lines| ==> '\n' !in lines[i]
    ensures Split(PadLines(lines), '\n') == seq(|lines|, i requires 0 <= i < |lines| => "  " + lines[i]) + [""]
    decreases |lines|
  {
    if lines != [] {
      var first := "  " + lines[0];
      assert '\n' !in first;
      PadLinesSplit(lines[1..]);
      assert PadLines(lines) == first + ['\n'] + PadLines(lines[1..]);
      SplitAfterFirst(first, PadLines(lines[1..]), '\n');
    }
  }

  /** Whatever the declaration, its block is a sequence of lines, each starting with
      two spaces and ending with `\n`: split at `\n`, it gives every line of the
      stripped, filled template with two spaces in front, and then nothing. */
  lemma BlockLines(d: Decl)
    requires Holes(d.template, 1)
    ensures var parts := Split(Strip(Format(d.template, [KwArgs(d.kv)]) + "\n"), '\n');
      Split(Block(d), '\n') == seq(|parts|, i requires 0 <= i < |parts| => "  " + parts[i]) + [""]
  {
    SplitPartsFree(Strip(Format(d.template, [KwArgs(d.kv)]) + "\n"), '\n');
    PadLinesSplit(Split(Strip(Format(d.template, [KwArgs(d.kv)]) + "\n"), '\n'));
  }

  /** One field spec, already split at `:`: the name must be an identifier, a type tag
      must follow, its lower case must be registered, and then the handler decides. */
  function FieldBlock(modelName: string, values: seq<string>): (r: Outcome<string>)
    requires NoBraces(modelName) && |values| >= 1
    ensures r.Ok? ==> IsIdentifier(values[0]) && |values| >= 2 && Lower(values[1]) in Parsers
  {
    var name := values[0];
    if !IsIdentifier(name) then Fail(Exit(InvalidFieldName(name)))
    else if |values| < 2 then Fail(Exit(MissingFieldType(name)))
    else if Lower(values[1]) !in Parsers then Fail(Exit(UnknownFieldType(name, Lower(values[1]))))
    else
      var h := Parsers[Lower(values[1])];
      IdentifierIsJsonPlain(name);
      DispatchShape(h, TargetModel(modelName), values);
      match Dispatch(h, TargetModel(modelName), values)
      case Fail(f) => Fail(f)
      case Ok(d) => Ok(Block(d))
  }

  /** The loop over the space-separated field specs, as a fold over its prefix: the
      first failing field ends the parse with that field's failure. */
  function ParseFields(modelName: string, fields: seq<string>): Outcome<Parsed>
    requires NoBraces(modelName)
    decreases |fields|
  {
    if fields == [] then Ok(Parsed([], []))
    else
      var n := |fields| - 1;
      match ParseFields(modelName, fields[..n])
      case Fail(f) => Fail(f)
      case Ok(p) =>
        var values := Split(fields[n], ':');
        match FieldBlock(modelName, values)
        case Fail(f) => Fail(f)
        case Ok(b) => Ok(Parsed(p.fieldNames + [values[0]], p.fieldsStr + b))
  }

  /** `parsers[field_type](...)`: the registered handler, with the model name for the
      two relation handlers. */
  method CallHandler(h: Handler, modelName: string, values: seq<string>) returns (r: Outcome<Decl>)
    requires |values| >= 1 && NoBraces(values[0])
    ensures r == Dispatch(h, modelName, values)
    ensures r.Ok? ==> UniqueKeys(r.value.kv)
  {
    match h
    case IntHandler => r := HandleInt(values);
    case FloatHandler => r := HandleFloat(values);
    case DecimalHandler => r := HandleDecimal(values);
    case CharHandler => r := HandleChar(values);
    case TextHandler => r := HandleTextField(values);
    case DatetimeHandler => r := HandleDatetimeField(values);
    case FkHandler => r := HandleFkField(modelName, values);
    case M2mHandler => r := HandleM2mField(modelName, values);
  }

  /** One pass of the loop in `parse_gen_str`: the field's name, and the indented
      declaration text it adds or the exit or exception that ends the parse. */
  method ParseField(modelName: string, field: string) returns (fieldName: string, block: Outcome<string>)
    requires NoBraces(modelName)
    ensures fieldName == Split(field, ':')[0]
    ensures block == FieldBlock(modelName, Split(field, ':'))
  {
    var values := Split(field, ':');
    fieldName := values[0];
    if !IsIdentifier(fieldName) {
      return fieldName, Fail(Exit(InvalidFieldName(fieldName)));
    }
    if |values| < 2 {
      return fieldName, Fail(Exit(MissingFieldType(fieldName)));
    }
    var fieldType := Lower(values[1]);
    if fieldType !in Parsers {
      return fieldName, Fail(Exit(UnknownFieldType(fieldName, fieldType)));
    }
    var modelNameParsed := modelName;
    if '.' in modelNameParsed {
      modelNameParsed := Split(modelNameParsed, '.')[1];
    }
    assert modelNameParsed == TargetModel(modelName) && NoBraces(modelNameParsed);
    IdentifierIsJsonPlain(fieldName);
    var out := CallHandler(Parsers[fieldType], modelNameParsed, values);
    if out.Fail? {
      return fieldName, Fail(out.failure);
    }
    DispatchShape(Parsers[fieldType], modelNameParsed, values);
    var charFieldsStr := Format(out.value.template, [KwArgs(out.value.kv)]) + "\n";
    block := Ok(PadLines(Split(Strip(charFieldsStr), '\n')));
  }

  /** `parse_gen_str` */
  method ParseGenStr(modelName: string, genStr: string) returns (r: Outcome<Parsed>)
    requires NoBraces(modelName)
    ensures r == ParseFields(modelName, Split(genStr, ' '))
  {
    r := ParseAll(modelName, Split(genStr, ' '));
  }

  /** The loop of `parse_gen_str` over the space-separated field specs. */
  method ParseAll(modelName: string, fields: seq<string>) returns (r: Outcome<Parsed>)
    requires NoBraces(modelName)
    ensures r == ParseFields(modelName, fields)
  {
    var fieldsStr := "";
    var fieldNames := [];
    var i := 0;
    while i < |fields|
      invariant 0 <= i <= |fields|
      invariant ParseFields(modelName, fields[..i]) == Ok(Parsed(fieldNames, fieldsStr))
    {
      assert fields[..i + 1][..i] == fields[..i];
      var fieldName, block := ParseField(modelName, fields[i]);
      fieldNames := fieldNames + [fieldName];
      if block.Fail? {
        FailureSticks(modelName, fields, i + 1);
        return Fail(block.failure);
      }
      fieldsStr := fieldsStr + block.value;
      i := i + 1;
    }
    assert fields[..i] == fields;
    r := Ok(Parsed(fieldNames, fieldsStr));
  }

  /** Once a prefix of the fields fails, the whole parse fails the same way. */
  lemma {:induction false} FailureSticks(modelName: string, fields: seq<string>, k: nat)
    requires NoBraces(modelName) && k <= |fields|
    ensures ParseFields(modelName, fields[..k]).Fail? ==>
              ParseFields(modelName, fields) == ParseFields(modelName, fields[..k])
    decreases |fields| - k
  {
    if k < |fields| && ParseFields(modelName, fields[..k]).Fail? {
      assert fields[..k + 1][..k] == fields[..k];
      FailureSticks(modelName, fields, k + 1);
    } else if k == |fields| {
      assert fields[..k] == fields;
    }
  }

  /** `field` gets past the checks and its handler. */
  predicate Accepted(modelName: string, field: string)
    requires NoBraces(modelName)
  {
    FieldBlock(modelName, Split(field, ':')).Ok?
  }

  /** The parse succeeds exactly when every field is accepted, and then it lists the
      fields' names, in order, each an identifier. */
  lemma {:induction false} ParseAccepts(modelName: string, fields: seq<string>)
    requires NoBraces(modelName)
    ensures ParseFields(modelName, fields).Ok? <==> forall i :: 0 <= i < |fields| ==> Accepted(modelName, fields[i])
    ensures var r := ParseFields(modelName, fields);
      r.Ok? ==> |r.value.fieldNames| == |fields|
                && forall i :: 0 <= i < |fields| ==>
                     r.value.fieldNames[i] == Split(fields[i], ':')[0] && IsIdentifier(r.value.fieldNames[i])
    decreases |fields|
  {
    if fields != [] {
      var n := |fields| - 1;
      var init := fields[..n];
      ParseAccepts(modelName, init);
      var values := Split(fields[n], ':');
      var last := FieldBlock(modelName, values);
      var prev := ParseFields(modelName, init);
      if prev.Fail? {
        assert ParseFields(modelName, fields) == Fail(prev.failure);
        var i :| 0 <= i < n && !Accepted(modelName, init[i]);
        assert init[i] == fields[i];
      } else if last.Fail? {
        assert ParseFields(modelName, fields) == Fail(last.failure);
        assert !Accepted(modelName, fields[n]);
      } else {
        assert |init| == n && |prev.value.fieldNames| == n;
        var names := prev.value.fieldNames + [values[0]];
        assert names[n] == values[0];
        assert ParseFields(modelName, fields) == Ok(Parsed(names, prev.value.fieldsStr + last.value));
        forall i | 0 <= i < |fields|
          ensures Accepted(modelName, fields[i])
          ensures names[i] == Split(fields[i], ':')[0] && IsIdentifier(names[i])
        {
          if i < n {
            assert init[i] == fields[i];
            assert Accepted(modelName, init[i]);
            assert names[i] == prev.value.fieldNames[i];
          } else {
            assert i == n;
          }
        }
      }
    }
  }

  /** The first field that is not accepted decides the failure, whatever follows it. */
  lemma FirstFailure(modelName: string, fields: seq<string>, j: nat)
    requires NoBraces(modelName) && j < |fields|
    requires forall i :: 0 <= i < j ==> FieldBlock(modelName, Split(fields[i], ':')).Ok?
    requires FieldBlock(modelName, Split(fields[j], ':')).Fail?
    ensures ParseFields(modelName, fields) == Fail(FieldBlock(modelName, Split(fields[j], ':')).failure)
  {
    var init := fields[..j];
    forall i | 0 <= i < j ensures Accepted(modelName, init[i]) {
      assert init[i] == fields[i];
    }
    ParseAccepts(modelName, init);
    assert fields[..j + 1][..j] == init;
    FailureSticks(modelName, fields, j + 1);
  }

  /** Two spaces in a row leave an empty field between them, whose name is not an
      identifier, so the parse fails; so does an empty line. */
  lemma BlankFieldFails(modelName: string, genStr: string)
    requires NoBraces(modelName)
    requires genStr == [] || exists k :: 0 <= k && k + 1 < |genStr| && genStr[k] == ' ' && genStr[k + 1] == ' '
    ensures ParseFields(modelName, Split(genStr, ' ')).Fail?
  {
    var fields := Split(genStr, ' ');
    var e: nat := 0;
    if genStr != [] {
      var k :| 0 <= k && k + 1 < |genStr| && genStr[k] == ' ' && genStr[k + 1] == ' ';
      AdjacentSepsGiveEmptyPart(genStr, ' ', k);
      e :| 1 <= e < |fields| && fields[e] == [];
    }
    assert fields[e] == [];
    NoSepSplit([], ':');
    assert !Accepted(modelName, fields[e]);
    ParseAccepts(modelName, fields);
  }

  // ---------------------------------------------------------------- rendering

  /** A declaration without line breaks becomes one line indented by two spaces. */
  lemma OneLine(x: string)
    requires x != [] && !IsSpace(x[0]) && !IsSpace(x[|x| - 1]) && '\n' !in x
    ensures PadLines(Split(Strip(x + "\n"), '\n')) == "  " + x + "\n"
  {
    StripNewline(x);
    NoSepSplit(x, '\n');
    assert PadLines([x]) == "  " + x + "\n" + PadLines([]);
  }

  /** The checks made on one field before its handler runs, in order, and the exit
      each one takes. */
  lemma FieldChecks(modelName: string, values: seq<string>)
    requires NoBraces(modelName) && |values| >= 1
    ensures !IsIdentifier(values[0]) ==> FieldBlock(modelName, values) == Fail(Exit(InvalidFieldName(values[0])))
    ensures IsIdentifier(values[0]) && |values| < 2 ==>
              FieldBlock(modelName, values) == Fail(Exit(MissingFieldType(values[0])))
    ensures IsIdentifier(values[0]) && |values| >= 2 && Lower(values[1]) !in Parsers ==>
              FieldBlock(modelName, values) == Fail(Exit(UnknownFieldType(values[0], Lower(values[1]))))
  {
  }

  /** The message printed on each of those three exits, as the user sees it. */
  lemma FieldMessages(modelName: string, values: seq<string>)
    requires NoBraces(modelName) && |values| >= 1
    ensures var r := FieldBlock(modelName, values);
      !IsIdentifier(values[0]) ==>
        (r.Fail? && r.failure.Exit? && Text(r.failure.diagnostic) == "Field name " + values[0] + " is invalid!")
    ensures var r := FieldBlock(modelName, values);
      IsIdentifier(values[0]) && |values| < 2 ==>
        (r.Fail? && r.failure.Exit? && Text(r.failure.diagnostic) == "you forgot to provide the type for " + values[0] + "!")
    ensures var r := FieldBlock(modelName, values);
      IsIdentifier(values[0]) && |values| >= 2 && Lower(values[1]) !in Parsers ==>
        (r.Fail? && r.failure.Exit? && Text(r.failure.diagnostic) == values[0] + "'s field type of " + Lower(values[1]) + " does not exist!")
  {
    FieldChecks(modelName, values);
  }

  /** The declaration line of a non-relation field once its keyword arguments are filled in. */
  function ScalarLine(name: string, kind: string, args: string): string
  {
    DeclPrefix(name, kind) + args + ")"
  }

  /** That line starts with the field name, ends with `)`, and holds a line break only
      when the keyword arguments do. */
  lemma ScalarLinePlain(h: Handler, name: string, args: string)
    requires !IsRelation(h) && IsIdentifier(name) && '\n' !in args
    ensures var x := ScalarLine(name, ScalarKind(h), args);
      x != [] && !IsSpace(x[0]) && !IsSpace(x[|x| - 1]) && '\n' !in x
  {
  }

  /** A non-relation declaration whose keyword arguments hold no line break becomes
      one line indented by two spaces. */
  lemma ScalarBlock(h: Handler, name: string, kv: Items)
    requires !IsRelation(h) && IsIdentifier(name) && '\n' !in KwArgs(kv)
    ensures var tpl := FieldTemplate(name, ScalarKind(h));
      Holes(tpl, 1) && Block(Decl(tpl, kv)) == "  " + ScalarLine(name, ScalarKind(h), KwArgs(kv)) + "\n"
  {
    var kind := ScalarKind(h);
    IdentifierIsJsonPlain(name);
    assert NoBraces(kind);
    FieldTemplateHoles(name, kind);
    ScalarLinePlain(h, name, KwArgs(kv));
    OneLine(ScalarLine(name, kind, KwArgs(kv)));
  }

  /** A field of a non-relation type that its handler accepts adds exactly one line,
      `  <name> = fields.<Kind>Field(<k>=<v>, ...)` with the handler's entries in
      order, provided none of them holds a line break. */
  lemma ScalarFieldBlock(modelName: string, values: seq<string>)
    requires NoBraces(modelName) && |values| >= 2 && IsIdentifier(values[0])
    requires Lower(values[1]) in Parsers && !IsRelation(Parsers[Lower(values[1])])
    ensures var h := Parsers[Lower(values[1])];
      var r := Dispatch(h, TargetModel(modelName), values);
      r.Ok? && '\n' !in KwArgs(r.value.kv) ==>
        FieldBlock(modelName, values) == Ok("  " + ScalarLine(values[0], ScalarKind(h), KwArgs(r.value.kv)) + "\n")
  {
    var h := Parsers[Lower(values[1])];
    IdentifierIsJsonPlain(values[0]);
    var r := Dispatch(h, TargetModel(modelName), values);
    ScalarDispatchShape(h, TargetModel(modelName), values);
    if r.Ok? && '\n' !in KwArgs(r.value.kv) {
      ScalarBlock(h, values[0], r.value.kv);
    }
  }

  /** What a non-relation handler stores for a field with no options: only the char
      handler stores something, its default length. */
  function PlainKv(h: Handler): Items
  {
    if h == CharHandler then [("length", "255")] else []
  }

  lemma PlainDispatch(h: Handler, modelName: string, name: string, tag: string)
    requires !IsRelation(h) && IsIdentifier(name)
    ensures NoBraces(name) && Dispatch(h, modelName, [name, tag]) == Ok(Decl(FieldTemplate(name, ScalarKind(h)), PlainKv(h)))
  {
  }

  /** The keyword arguments of a field with no options. */
  lemma PlainKwArgs(h: Handler)
    ensures KwArgs(PlainKv(h)) == if h == CharHandler then "length=255" else ""
  {
  }

  /** A field given only a name and a non-relation type tag, in any case, becomes one
      line: `  <name> = fields.<Kind>Field()`, with `length=255` inside the parentheses
      for `char`. */
  lemma PlainFieldBlock(modelName: string, name: string, tag: string)
    requires NoBraces(modelName) && IsIdentifier(name)
    requires Lower(tag) in Parsers && !IsRelation(Parsers[Lower(tag)])
    ensures var h := Parsers[Lower(tag)];
      FieldBlock(modelName, [name, tag])
      == Ok("  " + ScalarLine(name, ScalarKind(h), if h == CharHandler then "length=255" else "") + "\n")
  {
    var h := Parsers[Lower(tag)];
    PlainDispatch(h, TargetModel(modelName), name, tag);
    PlainKwArgs(h);
    assert '\n' !in "length=255";
    ScalarFieldBlock(modelName, [name, tag]);
  }

  /** The keyword arguments of a relation field with no options: `related_name` and,
      for m2m, `through`, both quoted by `json.dumps`. */
  function RelationArgs(rel: Relation, modelName: string, name: string): string
  {
    "related_name" + "=" + JsonQuote(Pluralize(Lower(modelName)))
    + if rel == ManyToMany then ", " + ("through" + "=" + JsonQuote(Lower(modelName) + "_" + Lower(name))) else ""
  }

  /** The dict a relation handler fills renders as `RelationArgs`. */
  lemma RelationKwArgs(rel: Relation, modelName: string, name: string)
    ensures KwArgs(RelationKv(rel, modelName, name)) == RelationArgs(rel, modelName, name)
  {
    var related := JsonQuote(Pluralize(Lower(modelName)));
    var through := JsonQuote(Lower(modelName) + "_" + Lower(name));
    var kv := RelationKv(rel, modelName, name);
    var parts := seq(|kv|, i requires 0 <= i < |kv| => TupleToStr(kv[i]));
    assert Store([], "related_name", related) == [("related_name", related)];
    if rel == ManyToMany {
      assert Store([("related_name", related)], "through", through)
             == [("related_name", related)] + Store([], "through", through);
      assert kv == [("related_name", related), ("through", through)];
      assert parts == [TupleToStr(kv[0]), TupleToStr(kv[1])];
      assert JoinWith(parts, ", ") == parts[0] + ", " + JoinWith(parts[1..], ", ");
    } else {
      assert kv == [("related_name", related)];
      assert parts == [TupleToStr(kv[0])];
    }
  }

  /** Those keyword arguments hold no line break: `json.dumps` escapes it. */
  lemma RelationArgsOneLine(rel: Relation, modelName: string, name: string)
    ensures '\n' !in RelationArgs(rel, modelName, name)
  {
    var related := JsonQuote(Pluralize(Lower(modelName)));
    var through := JsonQuote(Lower(modelName) + "_" + Lower(name));
    JsonQuotePrintable(Pluralize(Lower(modelName)));
    JsonQuotePrintable(Lower(modelName) + "_" + Lower(name));
    assert '\n' !in related && '\n' !in through;
    assert '\n' !in "related_name" + "=" && '\n' !in ", " + ("through" + "=");
  }

  /** The declaration line of a relation field once its keyword arguments are filled in. */
  function RelationLine(rel: Relation, name: string, target: string, args: string): string
  {
    DeclPrefix(name, RelationKind(rel)) + "\"" + target + "\", " + args + ")"
  }

  lemma RelationLineFormat(rel: Relation, name: string, target: string, args: string)
    requires NoBraces(name) && IsIdentifier(target)
    ensures Holes(DeclPrefix(name, RelationKind(rel)) + "\"" + target + "\", {})", 1)
    ensures Format(DeclPrefix(name, RelationKind(rel)) + "\"" + target + "\", {})", [args])
            == RelationLine(rel, name, target, args)
  {
    IdentifierIsJsonPlain(target);
    var p := DeclPrefix(name, RelationKind(rel)) + "\"" + target + "\", ";
    assert NoBraces(p) by {
      assert NoBraces(RelationKind(rel));
      DeclPrefixNoBraces(name, RelationKind(rel));
      assert NoBraces("\"") && NoBraces("\", ");
    }
    assert DeclPrefix(name, RelationKind(rel)) + "\"" + target + "\", {})" == p + "{}" + ")";
    FormatOne(p, ")", args);
  }

  /** The declaration line holds a line break only when the keyword arguments do. */
  lemma RelationLineOneLine(rel: Relation, name: string, target: string, args: string)
    requires IsIdentifier(name) && IsIdentifier(target) && '\n' !in args
    ensures '\n' !in RelationLine(rel, name, target, args)
  {
    assert forall i :: 0 <= i < |name| ==> IsIdentChar(name[i]);
    assert forall i :: 0 <= i < |target| ==> IsIdentChar(target[i]);
    assert '\n' !in " = fields." && '\n' !in "Field(" && '\n' !in RelationKind(rel);
    assert '\n' !in "\"" && '\n' !in "\", " && '\n' !in ")";
  }

  /** Three one-line pieces joined by line breaks come back as three indented lines. */
  lemma ThreeLines(a: string, b: string, c: string)
    requires a != [] && !IsSpace(a[0]) && c != [] && !IsSpace(c[|c| - 1])
    requires '\n' !in a && '\n' !in b && '\n' !in c
    ensures PadLines(Split(Strip(a + "\n" + b + "\n" + c + "\n"), '\n')) == PadLines([a, b, c])
  {
    var x := a + "\n" + b + "\n" + c;
    assert x[0] == a[0] && x[|x| - 1] == c[|c| - 1];
    StripNewline(x);
    PrependTwice(a + "\n", b + "\n", c);
    PrependTwice(a + "\n", b, "\n");
    SplitAfterFirst(a, b + ['\n'] + c, '\n');
    SplitAfterFirst(b, c, '\n');
    NoSepSplit(c, '\n');
  }

  /** What a relation handler returns for `name:fk:Target` or `name:m2m:Target`. */
  lemma RelationDispatch(h: Handler, modelName: string, name: string, tag: string, target: string)
    requires IsRelation(h) && IsIdentifier(name) && IsIdentifier(target)
    ensures var rel := if h == FkHandler then ForeignKey else ManyToMany;
      NoBraces(name)
      && Dispatch(h, modelName, [name, tag, target])
         == Ok(Decl(TargetComment(rel, target) + ReverseComment(modelName)
                    + (DeclPrefix(name, RelationKind(rel)) + "\"" + target + "\", {})"),
                    RelationKv(rel, modelName, name)))
  {
    IdentifierIsJsonPlain(name);
    RelationShape(if h == FkHandler then ForeignKey else ManyToMany, modelName, [name, tag, target]);
  }

  /** A relation declaration formatted with its keyword arguments: the two comment
      lines and the declaration line, separated by line breaks. */
  lemma RelationFormatted(rel: Relation, modelName: string, name: string, target: string, args: string)
    requires NoBraces(modelName) && IsIdentifier(name) && IsIdentifier(target)
    ensures var tpl := TargetComment(rel, target) + ReverseComment(modelName)
                       + (DeclPrefix(name, RelationKind(rel)) + "\"" + target + "\", {})");
      Holes(tpl, 1)
      && Format(tpl, [args])
         == TargetLine(rel, target) + "\n" + ReverseLine(modelName) + "\n" + RelationLine(rel, name, target, args)
  {
    IdentifierIsJsonPlain(name);
    IdentifierIsJsonPlain(target);
    var decl := DeclPrefix(name, RelationKind(rel)) + "\"" + target + "\", {})";
    RelationLineFormat(rel, name, target, args);
    CommentsNoBraces(rel, target, modelName);
    FormatPrefix(TargetComment(rel, target) + ReverseComment(modelName), decl, [args]);
    PrependTwice(TargetLine(rel, target) + "\n", ReverseLine(modelName), "\n");
  }

  /** The three lines hold no line break, the first starts with `#` and the last ends
      with `)`. */
  lemma RelationLinesPlain(rel: Relation, modelName: string, name: string, target: string, args: string)
    requires '\n' !in modelName && IsIdentifier(name) && IsIdentifier(target) && '\n' !in args
    ensures var tl := TargetLine(rel, target);
      var line := RelationLine(rel, name, target, args);
      tl != [] && tl[0] == '#' && line != [] && line[|line| - 1] == ')'
      && '\n' !in tl && '\n' !in ReverseLine(modelName) && '\n' !in line
  {
    RelationLineOneLine(rel, name, target, args);
    IdentifierIsJsonPlain(target);
    TargetLineChars(rel, target);
    ReverseLineChars(modelName);
    assert TargetHead(rel)[0] == '#';
  }

  /** A relation declaration whose keyword arguments hold no line break becomes three
      indented lines. */
  lemma RelationBlock(rel: Relation, modelName: string, name: string, target: string, kv: Items)
    requires NoBraces(modelName) && '\n' !in modelName && IsIdentifier(name) && IsIdentifier(target)
    requires '\n' !in KwArgs(kv)
    ensures var tpl := TargetComment(rel, target) + ReverseComment(modelName)
                       + (DeclPrefix(name, RelationKind(rel)) + "\"" + target + "\", {})");
      Holes(tpl, 1)
      && Block(Decl(tpl, kv))
         == PadLines([TargetLine(rel, target), ReverseLine(modelName), RelationLine(rel, name, target, KwArgs(kv))])
  {
    RelationFormatted(rel, modelName, name, target, KwArgs(kv));
    RelationLinesPlain(rel, modelName, name, target, KwArgs(kv));
    ThreeLines(TargetLine(rel, target), ReverseLine(modelName), RelationLine(rel, name, target, KwArgs(kv)));
  }

  /** A field of a relation type that its handler accepts adds exactly three lines:
      the relation type comment naming the target, the reverse relation comment naming
      the model (after its first `.`), and the declaration with the quoted target and
      the handler's entries in order, provided no line break occurs in the model name
      or in an entry. */
  lemma RelationFieldBlock(modelName: string, values: seq<string>)
    requires NoBraces(modelName) && '\n' !in modelName && |values| >= 2 && IsIdentifier(values[0])
    requires Lower(values[1]) in Parsers && IsRelation(Parsers[Lower(values[1])])
    ensures var h := Parsers[Lower(values[1])];
      var rel := if h == FkHandler then ForeignKey else ManyToMany;
      var m := TargetModel(modelName);
      var r := Dispatch(h, m, values);
      r.Ok? && '\n' !in KwArgs(r.value.kv) ==>
        |values| > 2
        && FieldBlock(modelName, values)
           == Ok(PadLines([TargetLine(rel, values[2]), ReverseLine(m),
                           RelationLine(rel, values[0], values[2], KwArgs(r.value.kv))]))
  {
    var h := Parsers[Lower(values[1])];
    var rel := if h == FkHandler then ForeignKey else ManyToMany;
    var m := TargetModel(modelName);
    IdentifierIsJsonPlain(values[0]);
    RelationShape(rel, m, values);
    var r := Dispatch(h, m, values);
    if r.Ok? && '\n' !in KwArgs(r.value.kv) {
      RelationBlock(rel, m, values[0], values[2], r.value.kv);
    }
  }

  /** A relation field given only a name, `fk` or `m2m` in any case, and an identifier
      target becomes these three lines with `related_name` and, for m2m, `through`. */
  lemma RelationPlainFieldBlock(modelName: string, name: string, tag: string, target: string)
    requires NoBraces(modelName) && '\n' !in modelName && IsIdentifier(name) && IsIdentifier(target)
    requires Lower(tag) in Parsers && IsRelation(Parsers[Lower(tag)])
    ensures var rel := if Parsers[Lower(tag)] == FkHandler then ForeignKey else ManyToMany;
      var m := TargetModel(modelName);
      FieldBlock(modelName, [name, tag, target])
      == Ok(PadLines([TargetLine(rel, target), ReverseLine(m),
                      RelationLine(rel, name, target, RelationArgs(rel, m, name))]))
  {
    var h := Parsers[Lower(tag)];
    var rel := if h == FkHandler then ForeignKey else ManyToMany;
    var m := TargetModel(modelName);
    RelationDispatch(h, m, name, tag, target);
    RelationKwArgs(rel, m, name);
    RelationArgsOneLine(rel, m, name);
    RelationFieldBlock(modelName, [name, tag, target]);
  }
}
