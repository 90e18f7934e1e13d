/** A recipe's command tree, its ingredients and its dispensed volume, in millilitres. */
module Recipe {
  import opened Options

  datatype Command =
    | Empty
    | Manual(id: int, instruction: string)
    | Dispense(id: int, ingredient: string, volume: real)

  datatype Item = Single(command: Command) | Parallel(commands: seq<Command>)

  type Commands = seq<Item>

  datatype BoostCategory = Boostable | Reducible | Fixed

  type IngredientStore = map<string, BoostCategory>

  function FindById(store: IngredientStore, id: string): Option<BoostCategory> {
    if id in store then Some(store[id]) else None
  }

  /** The category a command's volume belongs to, if it dispenses a known ingredient. */
  function Category(cmd: Command, store: IngredientStore): Option<BoostCategory> {
    if cmd.Dispense? then FindById(store, cmd.ingredient) else None
  }

  /** All commands of the tree from left to right: the reference for every walk over it. */
  function Leaves(commands: Commands): seq<Command> {
    if commands == [] then []
    else (match commands[0] case Single(c) => [c] case Parallel(cs) => cs) + Leaves(commands[1..])
  }

  function FoldSeq<T>(cmds: seq<Command>, init: T, fn: (T, Command) -> T): T {
    if cmds == [] then init else FoldSeq(cmds[1..], fn(init, cmds[0]), fn)
  }

  /** The left fold over the tree. */
  function FoldCommands<T>(commands: Commands, init: T, fn: (T, Command) -> T): T {
    if commands == [] then init
    else
      var acc := match commands[0]
                 case Single(c) => fn(init, c)
                 case Parallel(cs) => FoldSeq(cs, init, fn);
      FoldCommands(commands[1..], acc, fn)
  }

  function MapSeq(cmds: seq<Command>, fn: Command -> Command): seq<Command> {
    if cmds == [] then [] else [fn(cmds[0])] + MapSeq(cmds[1..], fn)
  }

  /** The transform of the tree, item by item, that both scaling and boosting use. */
  function MapCommands(commands: Commands, fn: Command -> Command): Commands {
    if commands == [] then []
    else
      var item := match commands[0]
                  case Single(c) => Single(fn(c))
                  case Parallel(cs) => Parallel(MapSeq(cs, fn));
      [item] + MapCommands(commands[1..], fn)
  }

  lemma {:induction false} FoldAppend<T>(a: seq<Command>, b: seq<Command>, init: T, fn: (T, Command) -> T)
    ensures FoldSeq(a + b, init, fn) == FoldSeq(b, FoldSeq(a, init, fn), fn)
    decreases |a|
  {
    if a == [] {
      assert a + b == b;
    } else {
      assert (a + b)[1..] == a[1..] + b;
      FoldAppend(a[1..], b, fn(init, a[0]), fn);
    }
  }

  /** Folding the tree is folding its leaves. */
  lemma {:induction false} FoldLeaves<T>(commands: Commands, init: T, fn: (T, Command) -> T)
    ensures FoldCommands(commands, init, fn) == FoldSeq(Leaves(commands), init, fn)
    decreases |commands|
  {
    if commands != [] {
      var front := match commands[0] case Single(c) => [c] case Parallel(cs) => cs;
      FoldAppend(front, Leaves(commands[1..]), init, fn);
      FoldLeaves(commands[1..], FoldSeq(front, init, fn), fn);
      assert commands[0].Single? ==> FoldSeq(front, init, fn) == FoldSeq([], fn(init, front[0]), fn);
    }
  }

  lemma {:induction false} MapSeqAt(cmds: seq<Command>, fn: Command -> Command)
    ensures |MapSeq(cmds, fn)| == |cmds|
    ensures forall i | 0 <= i < |cmds| :: MapSeq(cmds, fn)[i] == fn(cmds[i])
    decreases |cmds|
  {
    if cmds != [] {
      MapSeqAt(cmds[1..], fn);
    }
  }

  /** The item `after` is the item `before` with `fn` applied to its commands. */
  ghost predicate ItemMapped(before: Item, after: Item, fn: Command -> Command) {
    match before
    case Single(c) => after == Single(fn(c))
    case Parallel(cs) =>
      && after.Parallel? && |after.commands| == |cs|
      && forall i | 0 <= i < |cs| :: after.commands[i] == fn(cs[i])
  }

  lemma {:induction false} MapCommandsAt(commands: Commands, fn: Command -> Command)
    ensures |MapCommands(commands, fn)| == |commands|
    ensures forall i | 0 <= i < |commands| :: ItemMapped(commands[i], MapCommands(commands, fn)[i], fn)
    decreases |commands|
  {
    if commands != [] {
      MapCommandsAt(commands[1..], fn);
      if commands[0].Parallel? {
        MapSeqAt(commands[0].commands, fn);
      }
    }
  }

  /** A tree mapped by `fn` is the only one that relates to it item by item. */
  lemma MappedIsMap(commands: Commands, after: Commands, fn: Command -> Command)
    requires |after| == |commands| && forall i | 0 <= i < |commands| :: ItemMapped(commands[i], after[i], fn)
    ensures after == MapCommands(commands, fn)
  {
    MapCommandsAt(commands, fn);
    forall i | 0 <= i < |commands| ensures after[i] == MapCommands(commands, fn)[i] {
      assert ItemMapped(commands[i], MapCommands(commands, fn)[i], fn);
      if commands[i].Parallel? {
        assert after[i].commands == MapCommands(commands, fn)[i].commands;
      }
    }
  }

  lemma {:induction false} MapSeqAppend(a: seq<Command>, b: seq<Command>, fn: Command -> Command)
    ensures MapSeq(a + b, fn) == MapSeq(a, fn) + MapSeq(b, fn)
    decreases |a|
  {
    if a == [] {
      assert a + b == b;
    } else {
      assert (a + b)[1..] == a[1..] + b;
      MapSeqAppend(a[1..], b, fn);
    }
  }

  lemma {:induction false} LeavesMap(commands: Commands, fn: Command -> Command)
    ensures Leaves(MapCommands(commands, fn)) == MapSeq(Leaves(commands), fn)
    decreases |commands|
  {
    if commands != [] {
      var front := match commands[0] case Single(c) => [c] case Parallel(cs) => cs;
      MapSeqAppend(front, Leaves(commands[1..]), fn);
      LeavesMap(commands[1..], fn);
      var mapped := MapCommands(commands, fn);
      assert mapped[1..] == MapCommands(commands[1..], fn);
      assert commands[0].Single? ==> MapSeq(front, fn) == [fn(front[0])];
    }
  }

  /** Same tree, same commands in the same places, but for the volumes of dispense commands. */
  predicate SameButVolume(a: Command, b: Command) {
    if a.Dispense? then b.Dispense? && b.id == a.id && b.ingredient == a.ingredient else a == b
  }

  ghost predicate SameShape(a: Commands, b: Commands) {
    && |a| == |b|
    && forall i | 0 <= i < |a| ::
         match a[i]
         case Single(c) => b[i].Single? && SameButVolume(c, b[i].command)
         case Parallel(cs) =>
           && b[i].Parallel? && |b[i].commands| == |cs|
           && forall j | 0 <= j < |cs| :: SameButVolume(cs[j], b[i].commands[j])
  }

  lemma MapKeepsShape(commands: Commands, fn: Command -> Command)
    requires forall c :: SameButVolume(c, fn(c))
    ensures SameShape(commands, MapCommands(commands, fn))
  {
    MapCommandsAt(commands, fn);
    var after := MapCommands(commands, fn);
    forall i | 0 <= i < |commands|
      ensures ItemMapped(commands[i], after[i], fn)
    {
    }
  }

  lemma ShapeIsReflexive(commands: Commands)
    ensures SameShape(commands, commands)
  {
  }

  // ---- Volumes ----

  function Volume(cmd: Command): real {
    if cmd.Dispense? then cmd.volume else 0.0
  }

  /** The parts into which a store divides the commands: by category, and what has neither. */
  datatype Part = Of(category: BoostCategory) | Rest

  predicate InPart(cmd: Command, store: IngredientStore, part: Part) {
    match part
    case Of(category) => Category(cmd, store) == Some(category)
    case Rest => Category(cmd, store) != Some(Boostable) && Category(cmd, store) != Some(Reducible)
  }

  /** The volume dispensed by the commands of one part. */
  function Sum(cmds: seq<Command>, store: IngredientStore, part: Part): real {
    if cmds == [] then 0.0
    else (if InPart(cmds[0], store, part) then Volume(cmds[0]) else 0.0) + Sum(cmds[1..], store, part)
  }

  function SumAll(cmds: seq<Command>): real {
    if cmds == [] then 0.0 else Volume(cmds[0]) + SumAll(cmds[1..])
  }

  lemma {:induction false} SumsSplit(cmds: seq<Command>, store: IngredientStore)
    ensures SumAll(cmds) == Sum(cmds, store, Of(Boostable)) + Sum(cmds, store, Of(Reducible)) + Sum(cmds, store, Rest)
    decreases |cmds|
  {
    if cmds != [] {
      SumsSplit(cmds[1..], store);
    }
  }

  /** The volume that a recipe dispenses. */
  function Total(commands: Commands): real {
    SumAll(Leaves(commands))
  }

  function TotalOf(commands: Commands, store: IngredientStore, part: Part): real {
    Sum(Leaves(commands), store, part)
  }

  predicate NonNegative(commands: Commands) {
    forall c <- Leaves(commands) :: Volume(c) >= 0.0
  }

  lemma MapKeepsNonNegative(commands: Commands, fn: Command -> Command)
    requires NonNegative(commands)
    requires forall c :: KeepsSignAt(fn, c)
    ensures NonNegative(MapCommands(commands, fn))
  {
    LeavesMap(commands, fn);
    MapSeqAt(Leaves(commands), fn);
    forall c <- Leaves(MapCommands(commands, fn)) ensures Volume(c) >= 0.0 {
      var i :| 0 <= i < |Leaves(commands)| && c == fn(Leaves(commands)[i]);
      assert KeepsSignAt(fn, Leaves(commands)[i]);
    }
  }

  ghost predicate KeepsSignAt(fn: Command -> Command, c: Command) {
    Volume(c) >= 0.0 ==> Volume(fn(c)) >= 0.0
  }

  lemma {:induction false} NonNegativeSum(cmds: seq<Command>, store: IngredientStore, part: Part)
    requires forall c <- cmds :: Volume(c) >= 0.0
    ensures Sum(cmds, store, part) >= 0.0
    ensures Sum(cmds, store, part) == 0.0 <==> forall c <- cmds :: InPart(c, store, part) ==> Volume(c) == 0.0
    decreases |cmds|
  {
    if cmds != [] {
      NonNegativeSum(cmds[1..], store, part);
      assert cmds == [cmds[0]] + cmds[1..];
    }
  }

  lemma {:induction false} MapSeqFixed(cmds: seq<Command>, fn: Command -> Command)
    ensures MapSeq(cmds, fn) == cmds <==> forall c <- cmds :: fn(c) == c
    decreases |cmds|
  {
    if cmds != [] {
      MapSeqFixed(cmds[1..], fn);
      assert cmds == [cmds[0]] + cmds[1..];
    }
  }

  /** A mapped tree is unchanged exactly when every leaf is. */
  lemma {:induction false} MapCommandsFixed(commands: Commands, fn: Command -> Command)
    ensures MapCommands(commands, fn) == commands <==> forall c <- Leaves(commands) :: fn(c) == c
    decreases |commands|
  {
    if commands != [] {
      MapCommandsFixed(commands[1..], fn);
      var mapped := MapCommands(commands, fn);
      assert mapped == [mapped[0]] + MapCommands(commands[1..], fn);
      assert commands == [commands[0]] + commands[1..];
      if commands[0].Parallel? {
        MapSeqFixed(commands[0].commands, fn);
      }
    }
  }

  /** Two passes over the tree are one. */
  lemma MapTwice(commands: Commands, f: Command -> Command, g: Command -> Command, both: Command -> Command)
    requires forall c :: ComposesAt(f, g, both, c)
    ensures MapCommands(MapCommands(commands, f), g) == MapCommands(commands, both)
  {
    MapCommandsAt(commands, f);
    var mid := MapCommands(commands, f);
    MapCommandsAt(mid, g);
    var after := MapCommands(mid, g);
    forall i | 0 <= i < |commands| ensures ItemMapped(commands[i], after[i], both) {
      assert ItemMapped(commands[i], mid[i], f) && ItemMapped(mid[i], after[i], g);
      match commands[i]
      case Single(c) => assert ComposesAt(f, g, both, c);
      case Parallel(cs) =>
        forall j | 0 <= j < |cs| ensures after[i].commands[j] == both(cs[j]) {
          assert ComposesAt(f, g, both, cs[j]);
        }
    }
    MappedIsMap(commands, after, both);
  }

  ghost predicate ComposesAt(f: Command -> Command, g: Command -> Command, both: Command -> Command, c: Command) {
    g(f(c)) == both(c)
  }

  ghost predicate AdditiveAt(h: real -> real, a: real, b: real) {
    h(a + b) == h(a) + h(b)
  }

  /** A function on volumes that distributes over sums, as multiplication by a constant does. */
  ghost predicate Additive(h: real -> real) {
    h(0.0) == 0.0 && forall a, b :: AdditiveAt(h, a, b)
  }

  /** `fn` keeps which commands are in the part, and applies `h` to their volumes. */
  ghost predicate AppliesTo(fn: Command -> Command, store: IngredientStore, part: Part, h: real -> real) {
    forall c :: AppliesAt(fn(c), store, part, h, c)
  }

  ghost predicate AppliesAt(after: Command, store: IngredientStore, part: Part, h: real -> real, c: Command) {
    && (InPart(after, store, part) <==> InPart(c, store, part))
    && (InPart(c, store, part) ==> Volume(after) == h(Volume(c)))
  }

  lemma {:induction false} SumMapped(cmds: seq<Command>, fn: Command -> Command, store: IngredientStore, part: Part, h: real -> real)
    requires Additive(h) && AppliesTo(fn, store, part, h)
    ensures Sum(MapSeq(cmds, fn), store, part) == h(Sum(cmds, store, part))
    decreases |cmds|
  {
    if cmds != [] {
      SumMapped(cmds[1..], fn, store, part, h);
      assert AppliesAt(fn(cmds[0]), store, part, h, cmds[0]);
      assert AdditiveAt(h, Volume(cmds[0]), Sum(cmds[1..], store, part));
      assert MapSeq(cmds, fn)[1..] == MapSeq(cmds[1..], fn);
    }
  }

  lemma TotalOfMapped(commands: Commands, fn: Command -> Command, store: IngredientStore, part: Part, h: real -> real)
    requires Additive(h) && AppliesTo(fn, store, part, h)
    ensures TotalOf(MapCommands(commands, fn), store, part) == h(TotalOf(commands, store, part))
  {
    LeavesMap(commands, fn);
    SumMapped(Leaves(commands), fn, store, part, h);
  }

  lemma TotalMapped(commands: Commands, fn: Command -> Command, store: IngredientStore, h: real -> real)
    requires Additive(h) && AppliesTo(fn, store, Of(Boostable), h) && AppliesTo(fn, store, Of(Reducible), h)
    requires AppliesTo(fn, store, Rest, h)
    ensures Total(MapCommands(commands, fn)) == h(Total(commands))
  {
    var b, r := TotalOf(commands, store, Of(Boostable)), TotalOf(commands, store, Of(Reducible));
    TotalOfMapped(commands, fn, store, Of(Boostable), h);
    TotalOfMapped(commands, fn, store, Of(Reducible), h);
    TotalOfMapped(commands, fn, store, Rest, h);
    SumsSplit(Leaves(commands), store);
    SumsSplit(Leaves(MapCommands(commands, fn)), store);
    assert AdditiveAt(h, b, r) && AdditiveAt(h, b + r, TotalOf(commands, store, Rest));
  }

  function Times(k: real): real -> real {
    x => x * k
  }

  lemma TimesIsAdditive(k: real)
    ensures Additive(Times(k))
  {
  }
}
