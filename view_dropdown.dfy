/**
 * The view switcher: the `classNames` helper, the button's label for the
 * current view, and the classes of each menu entry.
 */
module ViewDropdown {
  import opened Js

  /** An argument of `classNames`: a string, a boolean (from `cond && "x"`) or `undefined`. */
  datatype ClassArg = Str(s: string) | Bool(b: bool) | Undefined

  /** `Boolean(arg)`. */
  predicate Truthy(a: ClassArg) {
    match a
    case Str(s) => s != ""
    case Bool(b) => b
    case Undefined => false
  }

  /** How `join` writes a kept argument. */
  function Text(a: ClassArg): string {
    match a
    case Str(s) => s
    case Bool(b) => if b then "true" else "false"
    case Undefined => ""
  }

  /** One argument's contribution: its text when truthy, nothing otherwise. */
  function KeptOne(a: ClassArg): seq<string> {
    if Truthy(a) then [Text(a)] else []
  }

  /** The texts of the truthy arguments, in order. */
  function Kept(args: seq<ClassArg>): (r: seq<string>)
    ensures |r| <= |args|
    decreases |args|
  {
    if args == [] then [] else KeptOne(args[0]) + Kept(args[1..])
  }

  /** The texts of the arguments, in order. */
  function Texts(args: seq<ClassArg>): (r: seq<string>)
    ensures |r| == |args| && forall i :: 0 <= i < |args| ==> r[i] == Text(args[i])
    decreases |args|
  {
    if args == [] then [] else [Text(args[0])] + Texts(args[1..])
  }

  /** `Kept` is `filter(Boolean)` followed by writing each kept argument as text. */
  lemma {:induction false} KeptIsFilter(args: seq<ClassArg>)
    ensures Kept(args) == Texts(Filter(args, Truthy))
    decreases |args|
  {
    if args != [] {
      KeptIsFilter(args[1..]);
      var rest := Filter(args[1..], Truthy);
      assert Filter(args, Truthy) == (if Truthy(args[0]) then [args[0]] else []) + rest;
      TextsConcat(if Truthy(args[0]) then [args[0]] else [], rest);
    }
  }

  lemma {:induction false} TextsConcat(a: seq<ClassArg>, b: seq<ClassArg>)
    ensures Texts(a + b) == Texts(a) + Texts(b)
    decreases |a|
  {
    if a != [] {
      assert (a + b)[1..] == a[1..] + b;
      TextsConcat(a[1..], b);
    } else {
      assert a + b == b;
    }
  }

  /**
   * The kept texts are exactly the texts of the truthy arguments, and they
   * come in the arguments' order: they are the texts of a subsequence of them.
   */
  lemma KeptTruthyInOrder(args: seq<ClassArg>)
    ensures forall x :: x in Kept(args) <==> exists a :: a in args && Truthy(a) && Text(a) == x
    ensures IsSubsequence(Filter(args, Truthy), args) && Kept(args) == Texts(Filter(args, Truthy))
  {
    KeptIsFilter(args);
    FilterMembers(args, Truthy);
    FilterSubsequence(args, Truthy);
    var f := Filter(args, Truthy);
    forall x | x in Kept(args)
      ensures exists a :: a in args && Truthy(a) && Text(a) == x
    {
      var i :| 0 <= i < |f| && Texts(f)[i] == x;
      assert f[i] in f;
    }
    forall x | exists a :: a in args && Truthy(a) && Text(a) == x
      ensures x in Kept(args)
    {
      var a :| a in args && Truthy(a) && Text(a) == x;
      assert a in f;
      var i :| 0 <= i < |f| && f[i] == a;
      assert Texts(f)[i] == x;
    }
  }

  lemma KeptOfThree(args: seq<ClassArg>)
    requires |args| == 3
    ensures Kept(args) == KeptOne(args[0]) + KeptOne(args[1]) + KeptOne(args[2])
  {
    var rest := args[1..];
    var last := rest[1..];
    assert last[1..] == [];
    assert Kept(last) == KeptOne(args[2]);
    assert Kept(rest) == KeptOne(args[1]) + KeptOne(args[2]);
  }

  /** `classes.filter(Boolean).join(" ")`. */
  function ClassNames(args: seq<ClassArg>): string {
    Join(Kept(args), " ")
  }

  /** Every kept text comes from a truthy argument, so none is empty when all are strings. */
  lemma {:induction false} KeptFromTruthy(args: seq<ClassArg>)
    requires forall i :: 0 <= i < |args| ==> args[i].Str?
    ensures forall k :: 0 <= k < |Kept(args)| ==> Kept(args)[k] != ""
    decreases |args|
  {
    if args != [] {
      KeptFromTruthy(args[1..]);
    }
  }

  /** With no truthy argument the result is the empty string. */
  lemma {:induction false} AllFalsyGivesEmpty(args: seq<ClassArg>)
    requires forall i :: 0 <= i < |args| ==> !Truthy(args[i])
    ensures ClassNames(args) == ""
    decreases |args|
  {
    if args != [] {
      AllFalsyGivesEmpty(args[1..]);
    }
  }

  /** Single-word classes come back out of the result when it is split at spaces, in their order. */
  lemma ClassNamesSplit(args: seq<ClassArg>)
    requires Kept(args) != []
    requires forall k :: 0 <= k < |Kept(args)| ==> ' ' !in Kept(args)[k]
    ensures Split(ClassNames(args), ' ') == Kept(args)
  {
    assert " " == [' '];
    JoinSplit(Kept(args), ' ');
  }

  /** One menu entry. */
  datatype ViewOption = ViewOption(value: string, labelText: string)

  /** `options.find(opt => opt.value === currentView)`. */
  function Find(options: seq<ViewOption>, currentView: string): (r: Option<ViewOption>)
    ensures r.Some? ==> r.value in options && r.value.value == currentView
    ensures r.None? <==> forall o :: o in options ==> o.value != currentView
    decreases |options|
  {
    if options == [] then None
    else if options[0].value == currentView then Some(options[0])
    else Find(options[1..], currentView)
  }

  /** `find` returns the first match. */
  lemma {:induction false} FindFirst(options: seq<ViewOption>, currentView: string, i: nat)
    requires i < |options| && options[i].value == currentView
    requires forall k :: 0 <= k < i ==> options[k].value != currentView
    ensures Find(options, currentView) == Some(options[i])
    decreases i
  {
    if i > 0 {
      FindFirst(options[1..], currentView, i - 1);
    }
  }

  /** `currentOption?.label || currentView`. */
  function CurrentLabel(options: seq<ViewOption>, currentView: string): (r: string)
    ensures Find(options, currentView).Some? && Find(options, currentView).value.labelText != ""
      ==> r == Find(options, currentView).value.labelText
    ensures Find(options, currentView).Some? && Find(options, currentView).value.labelText == ""
      ==> r == currentView
    ensures Find(options, currentView).None? ==> r == currentView
  {
    var found := Find(options, currentView);
    if found.Some? && found.value.labelText != "" then found.value.labelText else currentView
  }

  /** The button text: the current label, a space, and `buttonLabel` (by default "view"). */
  function ButtonText(options: seq<ViewOption>, currentView: string, buttonLabel: Option<string>): string {
    CurrentLabel(options, currentView) + " " + (if buttonLabel.Some? then buttonLabel.value else "view")
  }

  /** The label falls back to the view's own value when no entry has a label for it. */
  lemma LabelFallback(options: seq<ViewOption>, currentView: string)
    requires forall o :: o in options && o.value == currentView ==> o.labelText == ""
    ensures CurrentLabel(options, currentView) == currentView
  {
  }

  /** The classes of one entry: hover shade, bold for the current view, then the fixed classes. */
  function OptionArgs(active: bool, currentView: string, option: ViewOption): seq<ClassArg> {
    [Str(if active then "bg-gray-100" else ""),
     Str(if currentView == option.value then "font-semibold" else ""),
     Str("block w-full px-4 py-2 text-left text-sm text-gray-700")]
  }

  function OptionClass(active: bool, currentView: string, option: ViewOption): string {
    ClassNames(OptionArgs(active, currentView, option))
  }

  /** An entry is bold exactly when it is the current view, hovered or not. */
  lemma BoldExactlyCurrent(active: bool, currentView: string, option: ViewOption)
    ensures "font-semibold" in Kept(OptionArgs(active, currentView, option)) <==> currentView == option.value
  {
    KeptOfThree(OptionArgs(active, currentView, option));
    assert "font-semibold" != "bg-gray-100";
    assert "font-semibold" != "block w-full px-4 py-2 text-left text-sm text-gray-700";
  }

  /** Over the whole menu, the bold entries are exactly those whose value is the current view. */
  lemma BoldEntries(options: seq<ViewOption>, active: seq<bool>, currentView: string)
    requires |active| == |options|
    ensures forall i :: 0 <= i < |options| ==>
      ("font-semibold" in Kept(OptionArgs(active[i], currentView, options[i])) <==> options[i].value == currentView)
  {
    forall i | 0 <= i < |options|
      ensures "font-semibold" in Kept(OptionArgs(active[i], currentView, options[i])) <==> options[i].value == currentView
    {
      BoldExactlyCurrent(active[i], currentView, options[i]);
    }
  }
}
