/** Scaling a recipe uniformly to the volume of a glass. Volumes are exact. */
module RecipeScale {
  import opened Recipe

  /** The machine epsilon of the program's floating-point type, 2^-52. */
  const EPSILON: real := 1.0 / 4503599627370496.0

  function Abs(x: real): real {
    if x < 0.0 then -x else x
  }

  function ScaleCommandVolume(cmd: Command, factor: real): Command {
    match cmd
    case Dispense(id, ingredient, volume) => Dispense(id, ingredient, volume * factor)
    case _ => cmd
  }

  function Scaler(factor: real): Command -> Command {
    c => ScaleCommandVolume(c, factor)
  }

  function ScaleCommandsUniformly(commands: Commands, factor: real): Commands {
    MapCommands(commands, Scaler(factor))
  }

  predicate NearIdentity(factor: real) {
    Abs(factor - 1.0) <= EPSILON * 4.0
  }

  function ScaleRecipe(commands: Commands, nominal: real, target: real): Commands
    requires nominal > 0.0 && target >= 0.0
  {
    var factor := target / nominal;
    if NearIdentity(factor) then commands else ScaleCommandsUniformly(commands, factor)
  }

  lemma ScalerApplies(factor: real, store: IngredientStore, part: Part)
    ensures Additive(Times(factor)) && AppliesTo(Scaler(factor), store, part, Times(factor))
  {
  }

  /** The scaled recipe dispenses its volume times target over nominal, but for the near-identity case. */
  lemma ScaledTotal(commands: Commands, nominal: real, target: real)
    requires nominal > 0.0 && target >= 0.0
    ensures Total(ScaleRecipe(commands, nominal, target))
            == if NearIdentity(target / nominal) then Total(commands) else Total(commands) * (target / nominal)
  {
    var factor := target / nominal;
    ScalerApplies(factor, map[], Of(Boostable));
    ScalerApplies(factor, map[], Of(Reducible));
    ScalerApplies(factor, map[], Rest);
    TotalMapped(commands, Scaler(factor), map[], Times(factor));
  }

  /** A target that differs from the nominal volume by a thousandth of it or more is reached: every command is scaled
      by target over nominal. */
  lemma OrdinaryTargetIsScaled(commands: Commands, nominal: real, target: real)
    requires nominal > 0.0 && target >= 0.0 && (target >= nominal * 1.001 || target <= nominal * 0.999)
    ensures AreScaled(Leaves(commands), Leaves(ScaleRecipe(commands, nominal, target)), target / nominal)
  {
    FarFromIdentity(nominal, target);
    UniformlyScaled(commands, target / nominal);
  }

  /** The dispensed volumes are multiplied by the factor, and nothing else differs. */
  predicate AreScaled(before: seq<Command>, after: seq<Command>, factor: real) {
    && |after| == |before|
    && forall i | 0 <= i < |before| ::
         if before[i].Dispense?
         then after[i] == Dispense(before[i].id, before[i].ingredient, before[i].volume * factor)
         else after[i] == before[i]
  }

  lemma UniformlyScaled(commands: Commands, factor: real)
    ensures AreScaled(Leaves(commands), Leaves(ScaleCommandsUniformly(commands, factor)), factor)
  {
    LeavesMap(commands, Scaler(factor));
    MapSeqAt(Leaves(commands), Scaler(factor));
  }

  lemma FarFromIdentity(nominal: real, target: real)
    requires nominal > 0.0 && (target >= nominal * 1.001 || target <= nominal * 0.999)
    ensures !NearIdentity(target / nominal)
  {
    var factor := target / nominal;
    assert factor * nominal == target;
    assert factor >= 1.001 || factor <= 0.999;
  }

  lemma ScaleKeepsShape(commands: Commands, nominal: real, target: real)
    requires nominal > 0.0 && target >= 0.0
    ensures SameShape(commands, ScaleRecipe(commands, nominal, target))
  {
    MapKeepsShape(commands, Scaler(target / nominal));
  }

  lemma ScaleKeepsNonNegative(commands: Commands, nominal: real, target: real)
    requires nominal > 0.0 && target >= 0.0 && NonNegative(commands)
    ensures NonNegative(ScaleRecipe(commands, nominal, target))
  {
    var factor := target / nominal;
    assert factor >= 0.0;
    forall c ensures KeepsSignAt(Scaler(factor), c) {
    }
    MapKeepsNonNegative(commands, Scaler(factor));
  }
}
