/**
 * CommandLineParser.java. The options class is a sequence of field
 * declarations, each with the type of the field and, when it carries one,
 * its @CommandLineArgument annotation; the object being filled is a map
 * from field name to value; Field.set is a map update that fails when the
 * value does not fit the field's type. Every exception the parser throws
 * (or lets through) is an `Err`.
 *
 * The functions say what each step computes; the methods are the source's
 * loops, proved to compute exactly that.
 */
module CommandLine {
  import opened Basics
  import opened Decimal

  /** CommandLineArgumentType. The source names FLAG and NUMBER; `Text`
      stands for any other kind, whose values are kept as strings. */
  datatype ArgType = Flag | Number | Text

  /** The Java type of an option field: boolean or Boolean, String, int or
      Integer, or anything else. */
  datatype FieldKind = BoolField | StringField | IntField | OtherField

  /** A value stored in a field; `Null` is the null reference. */
  datatype Value = Bool(b: bool) | Str(s: string) | Int(i: int) | Null

  /** The object being filled: field name to value. */
  type Target = map<string, Value>

  /** The @CommandLineArgument annotation; a shorthand of '\0' means none. */
  datatype Annotation = Annotation(name: string, shorthand: char, argType: ArgType, defaultValue: string)

  /** A declared field of the options class. */
  datatype FieldDecl = FieldDecl(name: string, kind: FieldKind, annotation: Option<Annotation>)

  /** CommandLineParser.Argument, with its field's name and type. Two
      arguments are equal when their full names are (lines 246-257), so
      the set of processed arguments is a set of full names. */
  datatype Argument = Argument(fullName: string, shorthand: char, argType: ArgType, defaultValue: Value,
                               field: string, fieldKind: FieldKind)

  /** Every exception that can leave `parse`. */
  datatype ParseError =
    | InvalidType(field: string, name: string)                   // line 229
    | InvalidDefault(field: string, name: string, value: string)  // line 226
    | DuplicateKey                                               // Collectors.toMap, lines 20-25
    | InvalidOptionsClass                                        // line 35
    | InvalidOption(token: string)                               // line 49
    | IndexOutOfRange(token: string)                             // charAt(0) of "" or charAt(1) of "-"
    | EmptyName                                                  // lines 87 and 120
    | UnknownName(name: string)                                  // lines 94 and 125
    | FlagValueMismatch(name: string)                            // line 99
    | CannotSetValue(name: string)                               // lines 106, 132 and 159
    | MissingValue(shorthand: char)                              // line 61
    | CannotSetDefault(name: string)                             // line 74

  /** The state carried from token to token in `parse`: the object, the
      full names of the arguments set so far, and the shorthand argument
      still waiting for its value (`state`). */
  datatype Scan = Scan(target: Target, processed: set<string>, pending: Option<Argument>)

  /** The two lookup maps of lines 20-25. */
  datatype Options = Options(fullNames: map<string, Argument>, shorthands: map<char, Argument>)

  // ---------------------------------------------------------------------
  // Field.set and setValueFor
  // ---------------------------------------------------------------------

  /** Field.set accepts a Boolean for a boolean field, a String or null for
      a String field and an Integer for an int field. (null is only ever
      offered to String fields.) */
  predicate Fits(kind: FieldKind, v: Value) {
    match v
    case Bool(_) => kind == BoolField
    case Str(_) => kind == StringField
    case Int(_) => kind == IntField
    case Null => kind == StringField
  }

  /** Field.set of the argument's field: the object with the field set, or
      `None` where the call throws. */
  function SetField(target: Target, a: Argument, v: Value): (r: Option<Target>)
    ensures r.Some? <==> Fits(a.fieldKind, v)
    ensures r.Some? ==> r.value == target[a.field := v]
  {
    if Fits(a.fieldKind, v) then Some(target[a.field := v]) else None
  }

  /** Lines 151-161: a NUMBER argument's text goes through Integer.valueOf,
      any other is stored as the string itself; both then go through
      Field.set. `name` is only used in the exception. */
  function SetValueFor(value: string, a: Argument, target: Target, name: string): Result<Target, ParseError> {
    var v := if a.argType == Number then (if ParseInt(value).Some? then Some(Int(ParseInt(value).value)) else None)
             else Some(Str(value));
    if v.None? then Err(CannotSetValue(name))
    else match SetField(target, a, v.value)
      case None => Err(CannotSetValue(name))
      case Some(t) => Ok(t)
  }

  // ---------------------------------------------------------------------
  // buildOptionList and the lookup maps
  // ---------------------------------------------------------------------

  /** Lines 201-231 for one field: the argument an annotated field
      declares, with its default converted for the field's type. */
  function ArgumentOf(f: FieldDecl): Result<Argument, ParseError>
    requires f.annotation.Some?
  {
    var ann := f.annotation.value;
    var arg := Argument(ann.name, ann.shorthand, ann.argType, Null, f.name, f.kind);
    match f.kind
    case BoolField => Ok(arg.(defaultValue := Bool(false)))
    case StringField => Ok(arg.(defaultValue := if ann.defaultValue == "" then Null else Str(ann.defaultValue)))
    case IntField =>
      (match ParseInt(ann.defaultValue)
       case Some(n) => Ok(arg.(defaultValue := Int(n)))
       case None => Err(InvalidDefault(f.name, ann.name, ann.defaultValue)))
    case OtherField => Err(InvalidType(f.name, ann.name))
  }

  /** Lines 197-236: the arguments of the annotated fields in declaration
      order, or the exception of the first field that cannot be one. */
  function BuildOptions(fields: seq<FieldDecl>): Result<seq<Argument>, ParseError> {
    if fields == [] then Ok([])
    else
      var f := fields[|fields| - 1];
      match BuildOptions(fields[..|fields| - 1])
      case Err(e) => Err(e)
      case Ok(list) =>
        if f.annotation.None? then Ok(list)
        else match ArgumentOf(f)
          case Err(e) => Err(e)
          case Ok(a) => Ok(list + [a])
  }

  /** Collectors.toMap by full name (lines 20-21): throws on a repeated
      key. */
  function IndexByName(list: seq<Argument>): Result<map<string, Argument>, ParseError> {
    if list == [] then Ok(map[])
    else
      var a := list[|list| - 1];
      match IndexByName(list[..|list| - 1])
      case Err(e) => Err(e)
      case Ok(m) => if a.fullName in m then Err(DuplicateKey) else Ok(m[a.fullName := a])
  }

  /** Lines 23-25: Collectors.toMap by shorthand over the arguments that
      have one. */
  function IndexByShorthand(list: seq<Argument>): Result<map<char, Argument>, ParseError> {
    if list == [] then Ok(map[])
    else
      var a := list[|list| - 1];
      match IndexByShorthand(list[..|list| - 1])
      case Err(e) => Err(e)
      case Ok(m) =>
        if a.shorthand == '\0' then Ok(m)
        else if a.shorthand in m then Err(DuplicateKey)
        else Ok(m[a.shorthand := a])
  }

  // ---------------------------------------------------------------------
  // One token
  // ---------------------------------------------------------------------

  /** String.indexOf(char): the first position of `c` in `s`, or -1. */
  function IndexOf(s: string, c: char): (r: int)
    ensures -1 <= r < |s|
    ensures r >= 0 ==> s[r] == c && forall i :: 0 <= i < r ==> s[i] != c
    ensures r == -1 ==> forall i :: 0 <= i < |s| ==> s[i] != c
  {
    if s == [] then -1
    else if s[0] == c then 0
    else var k := IndexOf(s[1..], c); if k < 0 then -1 else k + 1
  }

  /** Lines 81-115: `argv` is a long option without its "--": `name` sets
      a FLAG argument to true, `name=value` sets any other argument. */
  function LongArg(argv: string, names: map<string, Argument>, target: Target, processed: set<string>): Result<Scan, ParseError> {
    var nameEnd := IndexOf(argv, '=');
    if nameEnd == 0 then Err(EmptyName)
    else
      var hasValue := nameEnd > 0;
      var name := if hasValue then argv[..nameEnd] else argv;
      if name !in names then Err(UnknownName(name))
      else
        var a := names[name];
        if (a.argType == Flag) == hasValue then Err(FlagValueMismatch(name))
        else if !hasValue then
          match SetField(target, a, Bool(true))
          case None => Err(CannotSetValue(name))
          case Some(t) => Ok(Scan(t, processed + {a.fullName}, None))
        else
          match SetValueFor(argv[nameEnd + 1..], a, target, name)
          case Err(e) => Err(e)
          case Ok(t) => Ok(Scan(t, processed + {a.fullName}, None))
  }

  /** Lines 122-148 from the letter at `i` on: each FLAG letter sets its
      argument to true; the first other letter takes the rest of the
      cluster as its value, or, as the last letter, is left waiting for
      the next token. */
  function ShortArgsFrom(argv: string, i: nat, shorthands: map<char, Argument>, target: Target, processed: set<string>): Result<Scan, ParseError>
    requires i <= |argv|
    decreases |argv| - i
  {
    if i == |argv| then Ok(Scan(target, processed, None))
    else
      var c := argv[i];
      if c !in shorthands then Err(UnknownName([c]))
      else
        var a := shorthands[c];
        if a.argType == Flag then
          match SetField(target, a, Bool(true))
          case None => Err(CannotSetValue([c]))
          case Some(t) => ShortArgsFrom(argv, i + 1, shorthands, t, processed + {a.fullName})
        else if i + 1 == |argv| then Ok(Scan(target, processed, Some(a)))
        else
          match SetValueFor(argv[i + 1..], a, target, [c])
          case Err(e) => Err(e)
          case Ok(t) => Ok(Scan(t, processed + {a.fullName}, None))
  }

  /** Lines 118-149: `argv` is a cluster of shorthands without its "-". */
  function ShortArgs(argv: string, shorthands: map<char, Argument>, target: Target, processed: set<string>): Result<Scan, ParseError> {
    if |argv| < 1 then Err(EmptyName) else ShortArgsFrom(argv, 0, shorthands, target, processed)
  }

  /** Lines 40-57: one pass of the token loop. A waiting shorthand takes
      the token verbatim as its value; otherwise the token must be an
      option: "--..." long, "-..." a cluster of shorthands. */
  function Step(opts: Options, s: Scan, token: string): Result<Scan, ParseError> {
    if s.pending.Some? then
      var a := s.pending.value;
      match SetValueFor(token, a, s.target, [a.shorthand])
      case Err(e) => Err(e)
      case Ok(t) => Ok(Scan(t, s.processed + {a.fullName}, None))
    else if |token| == 0 then Err(IndexOutOfRange(token))
    else if token[0] != '-' then Err(InvalidOption(token))
    else if |token| == 1 then Err(IndexOutOfRange(token))
    else if token[1] == '-' then LongArg(token[2..], opts.fullNames, s.target, s.processed)
    else ShortArgs(token[1..], opts.shorthands, s.target, s.processed)
  }

  /** Lines 39-58: every token in turn. */
  function Tokens(opts: Options, s: Scan, tokens: seq<string>): Result<Scan, ParseError>
    decreases |tokens|
  {
    if tokens == [] then Ok(s)
    else match Step(opts, s, tokens[0])
      case Err(e) => Err(e)
      case Ok(s1) => Tokens(opts, s1, tokens[1..])
  }

  /** The value line 69-72 gives an argument that was not set. */
  function DefaultOf(a: Argument): Value {
    if a.argType == Flag then Bool(false) else a.defaultValue
  }

  /** Lines 63-76: every argument not processed gets its default, in list
      order. */
  function Defaults(list: seq<Argument>, processed: set<string>, target: Target): Result<Target, ParseError>
    decreases |list|
  {
    if list == [] then Ok(target)
    else
      var a := list[0];
      if a.fullName in processed then Defaults(list[1..], processed, target)
      else match SetField(target, a, DefaultOf(a))
        case None => Err(CannotSetDefault(a.fullName))
        case Some(t) => Defaults(list[1..], processed, t)
  }

  /** Lines 17-79: `parse`. `instance` is the object the options class's
      no-argument constructor makes, or `None` when that fails. */
  function ParseOf(tokens: seq<string>, fields: seq<FieldDecl>, instance: Option<Target>): Result<Target, ParseError> {
    match BuildOptions(fields)
    case Err(e) => Err(e)
    case Ok(list) =>
      match IndexByName(list)
      case Err(e) => Err(e)
      case Ok(names) =>
        match IndexByShorthand(list)
        case Err(e) => Err(e)
        case Ok(shorts) =>
          if instance.None? then Err(InvalidOptionsClass)
          else
            match Tokens(Options(names, shorts), Scan(instance.value, {}, None), tokens)
            case Err(e) => Err(e)
            case Ok(s) =>
              if s.pending.Some? then Err(MissingValue(s.pending.value.shorthand))
              else Defaults(list, s.processed, s.target)
  }

  // ---------------------------------------------------------------------
  // The loops
  // ---------------------------------------------------------------------

  /** buildOptionList (lines 197-236): append the argument of each
      annotated field. */
  method BuildOptionList(fields: seq<FieldDecl>) returns (r: Result<seq<Argument>, ParseError>)
    ensures r == BuildOptions(fields)
  {
    var arguments: seq<Argument> := [];
    var i := 0;
    while i < |fields|
      invariant 0 <= i <= |fields|
      invariant BuildOptions(fields[..i]) == Ok(arguments)
    {
      var f := fields[i];
      assert fields[..i + 1][..i] == fields[..i];
      if f.annotation.Some? {
        var a := ArgumentOf(f);
        if a.Err? {
          assert BuildOptions(fields[..i + 1]) == Err(a.error);
          BuildOptionsPrefixErr(fields, i + 1);
          return Err(a.error);
        }
        arguments := arguments + [a.value];
      }
      i := i + 1;
    }
    assert fields[..i] == fields;
    return Ok(arguments);
  }

  /** The first failing field decides the result of buildOptionList. */
  lemma {:induction false} BuildOptionsPrefixErr(fields: seq<FieldDecl>, n: nat)
    requires n <= |fields| && BuildOptions(fields[..n]).Err?
    ensures BuildOptions(fields) == BuildOptions(fields[..n])
    decreases |fields| - n
  {
    if n < |fields| {
      assert fields[..n + 1][..n] == fields[..n];
      BuildOptionsPrefixErr(fields, n + 1);
    } else {
      assert fields[..n] == fields;
    }
  }

  /** parseShortArgs (lines 118-149): the letter loop, which stops at the
      first letter that takes a value. */
  method ParseShortArgs(argv: string, shorthands: map<char, Argument>, target0: Target, processed0: set<string>)
      returns (r: Result<Scan, ParseError>)
    ensures r == ShortArgs(argv, shorthands, target0, processed0)
  {
    if |argv| < 1 {
      return Err(EmptyName);
    }
    var target, processed := target0, processed0;
    var i := 0;
    while i < |argv|
      invariant 0 <= i <= |argv|
      invariant ShortArgsFrom(argv, i, shorthands, target, processed) == ShortArgs(argv, shorthands, target0, processed0)
    {
      var c := argv[i];
      if c !in shorthands {
        return Err(UnknownName([c]));
      }
      var a := shorthands[c];
      if a.argType == Flag {
        var t := SetField(target, a, Bool(true));
        if t.None? {
          return Err(CannotSetValue([c]));
        }
        target, processed := t.value, processed + {a.fullName};
        i := i + 1;
        continue;
      }
      if |argv| == i + 1 {
        return Ok(Scan(target, processed, Some(a)));
      }
      var t := SetValueFor(argv[i + 1..], a, target, [c]);
      if t.Err? {
        return Err(t.error);
      }
      target, processed := t.value, processed + {a.fullName};
      break;
    }
    return Ok(Scan(target, processed, None));
  }

  /** Lines 63-76: the defaulting loop. */
  method ApplyDefaults(list: seq<Argument>, processed: set<string>, target0: Target) returns (r: Result<Target, ParseError>)
    ensures r == Defaults(list, processed, target0)
  {
    var target := target0;
    var i := 0;
    while i < |list|
      invariant 0 <= i <= |list|
      invariant Defaults(list[i..], processed, target) == Defaults(list, processed, target0)
    {
      var a := list[i];
      assert list[i..][1..] == list[i + 1..];
      if a.fullName !in processed {
        var t := SetField(target, a, if a.argType == Flag then Bool(false) else a.defaultValue);
        if t.None? {
          return Err(CannotSetDefault(a.fullName));
        }
        target := t.value;
      }
      i := i + 1;
    }
    return Ok(target);
  }

  /** `parse` (lines 17-79): build the arguments and their lookup maps,
      take the object from the constructor, run the token loop carrying
      the waiting shorthand, then fill in the defaults. */
  method Parse(tokens: seq<string>, fields: seq<FieldDecl>, instance: Option<Target>) returns (r: Result<Target, ParseError>)
    ensures r == ParseOf(tokens, fields, instance)
  {
    var built := BuildOptionList(fields);
    if built.Err? {
      return Err(built.error);
    }
    var list := built.value;
    var names := IndexByName(list);
    if names.Err? {
      return Err(names.error);
    }
    var shorts := IndexByShorthand(list);
    if shorts.Err? {
      return Err(shorts.error);
    }
    if instance.None? {
      return Err(InvalidOptionsClass);
    }
    var opts := Options(names.value, shorts.value);
    var val := instance.value;
    var processed: set<string> := {};
    var state: Option<Argument> := None;
    var i := 0;
    while i < |tokens|
      invariant 0 <= i <= |tokens|
      invariant Tokens(opts, Scan(val, processed, state), tokens[i..]) == Tokens(opts, Scan(instance.value, {}, None), tokens)
    {
      var arg := tokens[i];
      assert tokens[i..][1..] == tokens[i + 1..];
      if state.Some? {
        var t := SetValueFor(arg, state.value, val, [state.value.shorthand]);
        if t.Err? {
          return Err(t.error);
        }
        val, processed, state := t.value, processed + {state.value.fullName}, None;
        i := i + 1;
        continue;
      }
      if |arg| == 0 {
        return Err(IndexOutOfRange(arg));
      }
      if arg[0] != '-' {
        return Err(InvalidOption(arg));
      }
      if |arg| == 1 {
        return Err(IndexOutOfRange(arg));
      }
      var s;
      if arg[1] == '-' {
        s := LongArg(arg[2..], opts.fullNames, val, processed);
      } else {
        s := ParseShortArgs(arg[1..], opts.shorthands, val, processed);
      }
      if s.Err? {
        return Err(s.error);
      }
      val, processed, state := s.value.target, s.value.processed, s.value.pending;
      i := i + 1;
    }
    if state.Some? {
      return Err(MissingValue(state.value.shorthand));
    }
    r := ApplyDefaults(list, processed, val);
  }
}
