/**
 * What CommandLineParser promises, proved about the functions of
 * CommandLine: the lookup maps, buildOptionList's arguments and defaults,
 * the token loop, long options, clusters of shorthands, number values and
 * the defaulting of arguments that were not given.
 */
module CommandLineProperties {
  import opened Basics
  import opened Decimal
  import opened CommandLine

  // ---------------------------------------------------------------------
  // buildOptionList
  // ---------------------------------------------------------------------

  /** The annotated fields, in declaration order. */
  function Annotated(fields: seq<FieldDecl>): (r: seq<FieldDecl>)
    ensures forall f :: f in r ==> f in fields && f.annotation.Some?
  {
    if fields == [] then []
    else Annotated(fields[..|fields| - 1]) + (if fields[|fields| - 1].annotation.Some? then [fields[|fields| - 1]] else [])
  }

  /** An annotated field whose type buildOptionList refuses, or whose int
      default Integer.valueOf cannot read. */
  predicate Refused(f: FieldDecl) {
    && f.annotation.Some?
    && (f.kind == OtherField || (f.kind == IntField && ParseInt(f.annotation.value.defaultValue).None?))
  }

  /** `a` is the argument buildOptionList makes of the annotated field `f`:
      the annotation's name, shorthand and type, the field, and a default
      converted for the field's type (false for a boolean, null for an
      empty String default, the parsed value for an int). */
  predicate Declares(f: FieldDecl, a: Argument)
    requires f.annotation.Some?
  {
    var ann := f.annotation.value;
    && a.fullName == ann.name && a.shorthand == ann.shorthand && a.argType == ann.argType
    && a.field == f.name && a.fieldKind == f.kind
    && (f.kind == BoolField ==> a.defaultValue == Bool(false))
    && (f.kind == StringField ==> a.defaultValue == if ann.defaultValue == "" then Null else Str(ann.defaultValue))
    && (f.kind == IntField ==> a.defaultValue.Int? && ParseInt(ann.defaultValue) == Some(a.defaultValue.i))
    && f.kind != OtherField
  }

  /** One annotated field: ArgumentOf refuses exactly a refused field, and
      otherwise declares its argument. */
  lemma ArgumentOfDeclares(f: FieldDecl)
    requires f.annotation.Some?
    ensures ArgumentOf(f).Err? <==> Refused(f)
    ensures ArgumentOf(f).Ok? ==> Declares(f, ArgumentOf(f).value)
  {
  }

  /** buildOptionList fails exactly when some annotated field is refused. */
  lemma {:induction false} BuildOptionsRefuses(fields: seq<FieldDecl>)
    ensures BuildOptions(fields).Err? <==> exists i :: 0 <= i < |fields| && Refused(fields[i])
  {
    if fields != [] {
      var init, f := fields[..|fields| - 1], fields[|fields| - 1];
      BuildOptionsRefuses(init);
      if f.annotation.Some? {
        ArgumentOfDeclares(f);
      }
      assert (exists i :: 0 <= i < |fields| && Refused(fields[i])) <==>
             (exists i :: 0 <= i < |init| && Refused(init[i])) || Refused(f) by {
        if Refused(f) {
          assert Refused(fields[|fields| - 1]);
        }
        if exists i :: 0 <= i < |init| && Refused(init[i]) {
          var i :| 0 <= i < |init| && Refused(init[i]);
          assert Refused(fields[i]);
        }
        if exists i :: 0 <= i < |fields| && Refused(fields[i]) {
          var i :| 0 <= i < |fields| && Refused(fields[i]);
          if i < |init| {
            assert Refused(init[i]);
          }
        }
      }
    }
  }

  /** When buildOptionList succeeds it makes one argument per annotated
      field, in order, and nothing for the other fields. */
  lemma {:induction false} BuildOptionsDeclares(fields: seq<FieldDecl>)
    ensures BuildOptions(fields).Ok? ==>
      var list := BuildOptions(fields).value;
      && |list| == |Annotated(fields)|
      && forall k :: 0 <= k < |list| ==> Declares(Annotated(fields)[k], list[k])
  {
    if fields != [] && BuildOptions(fields).Ok? {
      var init, f := fields[..|fields| - 1], fields[|fields| - 1];
      BuildOptionsDeclares(init);
      var prev := BuildOptions(init).value;
      var list := BuildOptions(fields).value;
      if f.annotation.Some? {
        ArgumentOfDeclares(f);
        assert Annotated(fields) == Annotated(init) + [f];
        assert list == prev + [ArgumentOf(f).value];
        forall k | 0 <= k < |list|
          ensures Declares(Annotated(fields)[k], list[k])
        {
          if k < |prev| {
            assert Annotated(fields)[k] == Annotated(init)[k] && list[k] == prev[k];
          }
        }
      } else {
        assert Annotated(fields) == Annotated(init);
      }
    }
  }

  /** A default that buildOptionList makes always fits its field. */
  lemma DefaultsFit(f: FieldDecl, a: Argument)
    requires f.annotation.Some? && Declares(f, a)
    ensures Fits(a.fieldKind, a.defaultValue)
    ensures a.argType == Flag ==> (Fits(a.fieldKind, DefaultOf(a)) <==> a.fieldKind == BoolField)
  {
  }

  // ---------------------------------------------------------------------
  // The lookup maps
  // ---------------------------------------------------------------------

  /** The full names of the arguments are pairwise different. */
  predicate DistinctNames(list: seq<Argument>) {
    forall j, k :: 0 <= j < k < |list| ==> list[j].fullName != list[k].fullName
  }

  /** The map by full name exists exactly when no full name repeats. */
  lemma {:induction false} IndexByNameOk(list: seq<Argument>)
    ensures IndexByName(list).Ok? <==> DistinctNames(list)
  {
    if list != [] {
      var init, a := list[..|list| - 1], list[|list| - 1];
      IndexByNameOk(init);
      IndexByNameHolds(init);
      assert forall k :: 0 <= k < |init| ==> init[k] == list[k];
      assert DistinctNames(list) <==> DistinctNames(init) && forall j :: 0 <= j < |init| ==> init[j].fullName != a.fullName;
      if IndexByName(init).Ok? {
        var m := IndexByName(init).value;
        assert a.fullName in m <==> exists j :: 0 <= j < |init| && init[j].fullName == a.fullName;
      }
    }
  }

  /** When it exists, the map by full name holds every argument under its
      full name and nothing else. */
  lemma {:induction false} IndexByNameHolds(list: seq<Argument>)
    ensures IndexByName(list).Ok? ==>
      var m := IndexByName(list).value;
      && (forall k :: 0 <= k < |list| ==> list[k].fullName in m && m[list[k].fullName] == list[k])
      && (forall n :: n in m ==> m[n].fullName == n && exists k :: 0 <= k < |list| && m[n] == list[k])
  {
    if list != [] {
      var init := list[..|list| - 1];
      IndexByNameHolds(init);
      assert forall k :: 0 <= k < |init| ==> init[k] == list[k];
    }
  }

  /** The map by shorthand holds every argument that has a shorthand under
      it, and nothing else. */
  lemma {:induction false} IndexByShorthandResult(list: seq<Argument>)
    ensures IndexByShorthand(list).Ok? ==>
      var m := IndexByShorthand(list).value;
      && (forall k :: 0 <= k < |list| && list[k].shorthand != '\0' ==> list[k].shorthand in m && m[list[k].shorthand] == list[k])
      && (forall c :: c in m ==> c != '\0' && m[c].shorthand == c && m[c] in list)
  {
    if list != [] {
      var init := list[..|list| - 1];
      IndexByShorthandResult(init);
      assert forall k :: 0 <= k < |init| ==> init[k] == list[k];
    }
  }

  // ---------------------------------------------------------------------
  // The token loop
  // ---------------------------------------------------------------------

  /** Scanning two runs of tokens one after the other. */
  lemma {:induction false} TokensAppend(opts: Options, s: Scan, a: seq<string>, b: seq<string>)
    ensures Tokens(opts, s, a + b) == match Tokens(opts, s, a)
      case Err(e) => Err(e)
      case Ok(s1) => Tokens(opts, s1, b)
    decreases |a|
  {
    if a == [] {
      assert a + b == b;
    } else {
      assert (a + b)[0] == a[0] && (a + b)[1..] == a[1..] + b;
      match Step(opts, s, a[0])
      case Err(_) =>
      case Ok(s1) => TokensAppend(opts, s1, a[1..], b);
    }
  }

  /** A token that is not taken as a waiting shorthand's value must start
      with '-': otherwise parsing stops there with "Invalid option". */
  lemma TokenMustBeOption(opts: Options, s: Scan, tokens: seq<string>, i: nat, s1: Scan)
    requires i < |tokens| && Tokens(opts, s, tokens[..i]) == Ok(s1) && s1.pending.None?
    requires |tokens[i]| > 0 && tokens[i][0] != '-'
    ensures Tokens(opts, s, tokens) == Err(InvalidOption(tokens[i]))
  {
    assert tokens == tokens[..i] + tokens[i..];
    TokensAppend(opts, s, tokens[..i], tokens[i..]);
  }

  /** A shorthand left waiting takes the next token verbatim as its value,
      even one that starts with '-', and the loop goes on from there. */
  lemma PendingTakesNextToken(opts: Options, s: Scan, tokens: seq<string>, i: nat, s1: Scan)
    requires i < |tokens| && Tokens(opts, s, tokens[..i]) == Ok(s1) && s1.pending.Some?
    ensures var a := s1.pending.value;
      Tokens(opts, s, tokens) == match SetValueFor(tokens[i], a, s1.target, [a.shorthand])
        case Err(e) => Err(e)
        case Ok(t) => Tokens(opts, Scan(t, s1.processed + {a.fullName}, None), tokens[i + 1..])
  {
    assert tokens == tokens[..i] + tokens[i..];
    TokensAppend(opts, s, tokens[..i], tokens[i..]);
    assert tokens[i..][0] == tokens[i] && tokens[i..][1..] == tokens[i + 1..];
  }

  // ---------------------------------------------------------------------
  // Long options
  // ---------------------------------------------------------------------

  /** `--name` sets a FLAG argument's field to true and marks it
      processed; the field must be boolean. */
  lemma LongFlag(name: string, names: map<string, Argument>, target: Target, processed: set<string>)
    requires forall i :: 0 <= i < |name| ==> name[i] != '='
    requires name in names && names[name].argType == Flag
    ensures var a := names[name];
      LongArg(name, names, target, processed) ==
        if a.fieldKind == BoolField then Ok(Scan(target[a.field := Bool(true)], processed + {a.fullName}, None))
        else Err(CannotSetValue(name))
  {
  }

  /** `--name=value` hands everything after the first '=' (possibly
      nothing, possibly more '=') to setValueFor for a non-FLAG argument;
      a String argument stores exactly that text. */
  lemma LongValue(name: string, value: string, names: map<string, Argument>, target: Target, processed: set<string>)
    requires |name| > 0 && forall i :: 0 <= i < |name| ==> name[i] != '='
    requires name in names && names[name].argType != Flag
    ensures var a := names[name];
      LongArg(name + "=" + value, names, target, processed) == match SetValueFor(value, a, target, name)
        case Err(e) => Err(e)
        case Ok(t) => Ok(Scan(t, processed + {a.fullName}, None))
    ensures var a := names[name];
      a.argType == Text && a.fieldKind == StringField ==>
        LongArg(name + "=" + value, names, target, processed) == Ok(Scan(target[a.field := Str(value)], processed + {a.fullName}, None))
  {
    var argv := name + "=" + value;
    assert argv[|name|] == '=';
    assert forall i :: 0 <= i < |name| ==> argv[i] == name[i];
    assert IndexOf(argv, '=') == |name|;
    assert argv[..|name|] == name && argv[|name| + 1..] == value;
  }

  /** The long options that are refused: an empty name, an unknown name,
      a value for a FLAG argument and no value for any other. */
  lemma LongRejects(argv: string, names: map<string, Argument>, target: Target, processed: set<string>)
    ensures |argv| > 0 && argv[0] == '=' ==> LongArg(argv, names, target, processed) == Err(EmptyName)
    ensures (forall i :: 0 <= i < |argv| ==> argv[i] != '=') && argv !in names ==>
      LongArg(argv, names, target, processed) == Err(UnknownName(argv))
    ensures (forall i :: 0 <= i < |argv| ==> argv[i] != '=') && argv in names && names[argv].argType != Flag ==>
      LongArg(argv, names, target, processed) == Err(FlagValueMismatch(argv))
    ensures forall name, value :: |name| > 0 && (forall i :: 0 <= i < |name| ==> name[i] != '=') && argv == name + "=" + value ==>
      && (name !in names ==> LongArg(argv, names, target, processed) == Err(UnknownName(name)))
      && (name in names && names[name].argType == Flag ==> LongArg(argv, names, target, processed) == Err(FlagValueMismatch(name)))
  {
    forall name, value | |name| > 0 && (forall i :: 0 <= i < |name| ==> name[i] != '=') && argv == name + "=" + value
      ensures IndexOf(argv, '=') == |name| && argv[..|name|] == name
    {
      assert argv[|name|] == '=';
      assert forall i :: 0 <= i < |name| ==> argv[i] == name[i];
    }
  }

  // ---------------------------------------------------------------------
  // Clusters of shorthands
  // ---------------------------------------------------------------------

  /** Every letter of `s` is a shorthand of a FLAG argument. */
  predicate FlagLetters(s: string, shorthands: map<char, Argument>) {
    forall j :: 0 <= j < |s| ==> s[j] in shorthands && shorthands[s[j]].argType == Flag
  }

  /** Flag letters are handled one by one: scanning a cluster from `k` is
      scanning its first `i` letters, then the rest from where they left
      off. */
  lemma {:induction false} ShortArgsSplit(argv: string, i: nat, k: nat, shorthands: map<char, Argument>, target: Target, processed: set<string>)
    requires k <= i <= |argv| && FlagLetters(argv[..i], shorthands)
    ensures ShortArgsFrom(argv, k, shorthands, target, processed) ==
      match ShortArgsFrom(argv[..i], k, shorthands, target, processed)
      case Err(e) => Err(e)
      case Ok(s) => ShortArgsFrom(argv, i, shorthands, s.target, s.processed)
    decreases i - k
  {
    if k < i {
      assert argv[..i][k] == argv[k];
      var a := shorthands[argv[k]];
      match SetField(target, a, Bool(true))
      case None =>
      case Some(t) => ShortArgsSplit(argv, i, k + 1, shorthands, t, processed + {a.fullName});
    }
  }

  /** A cluster of FLAG letters whose fields are boolean sets every one of
      them to true and marks it processed, leaves every other field alone
      and waits for nothing. */
  lemma {:induction false} ShortFlagsSet(argv: string, k: nat, shorthands: map<char, Argument>, target: Target, processed: set<string>)
    requires k <= |argv| && FlagLetters(argv, shorthands)
    requires forall j :: 0 <= j < |argv| ==> shorthands[argv[j]].fieldKind == BoolField
    ensures var r := ShortArgsFrom(argv, k, shorthands, target, processed);
      && r.Ok? && r.value.pending.None?
      && (forall j :: k <= j < |argv| ==>
            shorthands[argv[j]].field in r.value.target && r.value.target[shorthands[argv[j]].field] == Bool(true))
      && (forall f :: f in target && (forall j :: k <= j < |argv| ==> shorthands[argv[j]].field != f) ==>
                        f in r.value.target && r.value.target[f] == target[f])
      && (forall n :: n in r.value.processed <==> n in processed || exists j :: k <= j < |argv| && shorthands[argv[j]].fullName == n)
    decreases |argv| - k
  {
    if k < |argv| {
      var a := shorthands[argv[k]];
      ShortFlagsSet(argv, k + 1, shorthands, target[a.field := Bool(true)], processed + {a.fullName});
    }
  }

  /** The first letter that is not a FLAG takes the rest of the cluster,
      unexamined and verbatim, as its value; as the last letter it is left
      waiting for the next token. */
  lemma ShortValueLetter(argv: string, i: nat, shorthands: map<char, Argument>, target: Target, processed: set<string>)
    requires i < |argv| && FlagLetters(argv[..i], shorthands)
    requires argv[i] in shorthands && shorthands[argv[i]].argType != Flag
    ensures var a := shorthands[argv[i]];
      ShortArgs(argv, shorthands, target, processed) ==
        match ShortArgsFrom(argv[..i], 0, shorthands, target, processed)
        case Err(e) => Err(e)
        case Ok(s) =>
          if i + 1 == |argv| then Ok(Scan(s.target, s.processed, Some(a)))
          else match SetValueFor(argv[i + 1..], a, s.target, [argv[i]])
            case Err(e) => Err(e)
            case Ok(t) => Ok(Scan(t, s.processed + {a.fullName}, None))
  {
    ShortArgsSplit(argv, i, 0, shorthands, target, processed);
  }

  /** An unknown letter, reached after FLAG letters with boolean fields,
      is refused. */
  lemma ShortUnknownLetter(argv: string, i: nat, shorthands: map<char, Argument>, target: Target, processed: set<string>)
    requires i < |argv| && FlagLetters(argv[..i], shorthands) && argv[i] !in shorthands
    requires forall j :: 0 <= j < i ==> shorthands[argv[j]].fieldKind == BoolField
    ensures ShortArgs(argv, shorthands, target, processed) == Err(UnknownName([argv[i]]))
  {
    ShortArgsSplit(argv, i, 0, shorthands, target, processed);
    ShortFlagsSet(argv[..i], 0, shorthands, target, processed);
  }

  // ---------------------------------------------------------------------
  // Values
  // ---------------------------------------------------------------------

  /** A NUMBER argument's text is stored as the int Integer.valueOf reads
      from it; text it cannot read, or a field that is not an int, is
      refused. Any other argument stores the text in a String field. */
  lemma SetValueForStores(value: string, a: Argument, target: Target, name: string)
    ensures a.argType == Number ==>
      && (SetValueFor(value, a, target, name).Ok? <==> ParseInt(value).Some? && a.fieldKind == IntField)
      && (SetValueFor(value, a, target, name).Ok? ==> SetValueFor(value, a, target, name).value == target[a.field := Int(ParseInt(value).value)])
    ensures a.argType != Number ==>
      && (SetValueFor(value, a, target, name).Ok? <==> a.fieldKind == StringField)
      && (SetValueFor(value, a, target, name).Ok? ==> SetValueFor(value, a, target, name).value == target[a.field := Str(value)])
    ensures SetValueFor(value, a, target, name).Err? ==> SetValueFor(value, a, target, name) == Err(CannotSetValue(name))
  {
  }

  /** Every int written in decimal is stored as that int. */
  lemma NumberRoundTrip(n: int, a: Argument, target: Target, name: string)
    requires MinInt <= n <= MaxInt && a.argType == Number && a.fieldKind == IntField
    ensures SetValueFor(Show(n), a, target, name) == Ok(target[a.field := Int(n)])
  {
    ParseShow(n);
  }

  // ---------------------------------------------------------------------
  // Defaults
  // ---------------------------------------------------------------------

  /** No two arguments write the same field. */
  predicate DistinctFields(list: seq<Argument>) {
    forall j, k :: 0 <= j < k < |list| ==> list[j].field != list[k].field
  }

  /** The defaulting loop succeeds exactly when every argument that was not
      set accepts its default; then each of those holds its default (false
      for a FLAG), and every other field, the ones set while parsing
      included, keeps its value. */
  lemma {:induction false} DefaultsFill(list: seq<Argument>, processed: set<string>, target: Target)
    requires DistinctFields(list)
    ensures Defaults(list, processed, target).Ok? <==>
      forall j :: 0 <= j < |list| && list[j].fullName !in processed ==> Fits(list[j].fieldKind, DefaultOf(list[j]))
    ensures Defaults(list, processed, target).Ok? ==>
      var r := Defaults(list, processed, target).value;
      && (forall j :: 0 <= j < |list| && list[j].fullName !in processed ==> list[j].field in r && r[list[j].field] == DefaultOf(list[j]))
      && (forall f :: f in target && (forall j :: 0 <= j < |list| && list[j].fullName !in processed ==> list[j].field != f) ==>
                        f in r && r[f] == target[f])
    decreases |list|
  {
    if list != [] {
      var a, rest := list[0], list[1..];
      assert forall j :: 0 <= j < |rest| ==> rest[j] == list[j + 1];
      if a.fullName in processed {
        DefaultsFill(rest, processed, target);
        assert forall j :: 1 <= j < |list| ==> list[j] == rest[j - 1];
      } else if Fits(a.fieldKind, DefaultOf(a)) {
        var t := target[a.field := DefaultOf(a)];
        DefaultsFill(rest, processed, t);
        assert forall j :: 1 <= j < |list| ==> list[j] == rest[j - 1];
      }
    }
  }

  /** What `parse` does once the tokens are read: a shorthand still
      waiting for its value is "Missing value"; otherwise the defaults are
      filled in. */
  lemma ParseEnds(tokens: seq<string>, fields: seq<FieldDecl>, instance: Target, list: seq<Argument>, opts: Options, s: Scan)
    requires BuildOptions(fields) == Ok(list)
    requires IndexByName(list) == Ok(opts.fullNames) && IndexByShorthand(list) == Ok(opts.shorthands)
    requires Tokens(opts, Scan(instance, {}, None), tokens) == Ok(s)
    ensures s.pending.Some? ==> ParseOf(tokens, fields, Some(instance)) == Err(MissingValue(s.pending.value.shorthand))
    ensures s.pending.None? ==> ParseOf(tokens, fields, Some(instance)) == Defaults(list, s.processed, s.target)
  {
  }

  /** A last token "-c" for the shorthand of an argument that is not a
      FLAG, after tokens that leave nothing waiting, fails with "Missing
      value for c". */
  lemma MissingValueAtEnd(tokens: seq<string>, fields: seq<FieldDecl>, instance: Target, list: seq<Argument>, opts: Options, s: Scan, c: char)
    requires BuildOptions(fields) == Ok(list)
    requires IndexByName(list) == Ok(opts.fullNames) && IndexByShorthand(list) == Ok(opts.shorthands)
    requires Tokens(opts, Scan(instance, {}, None), tokens) == Ok(s) && s.pending.None?
    requires c != '-' && c in opts.shorthands && opts.shorthands[c].argType != Flag
    ensures ParseOf(tokens + ["-" + [c]], fields, Some(instance)) == Err(MissingValue(c))
  {
    var last := "-" + [c];
    TokensAppend(opts, Scan(instance, {}, None), tokens, [last]);
    assert last[1..] == [c];
    assert Tokens(opts, s, [last]) == Ok(Scan(s.target, s.processed, Some(opts.shorthands[c])));
    IndexByShorthandResult(list);
  }
}
