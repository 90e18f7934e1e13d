/** Boosting a recipe: volume shifted between boostable and reducible ingredients. Volumes are exact. */
module RecipeBoost {
  import opened Options
  import opened Recipe
  import opened RecipeScale

  datatype VolumeSummary = VolumeSummary(boostable: real, reducible: real)

  datatype ScaleFactors = ScaleFactors(boostable: real, reducible: real)

  const UNCHANGED := ScaleFactors(1.0, 1.0)

  function AccumulateVolumes(acc: VolumeSummary, cmd: Command, store: IngredientStore): VolumeSummary {
    if !cmd.Dispense? then acc
    else
      match FindById(store, cmd.ingredient)
      case Some(Boostable) => acc.(boostable := acc.boostable + cmd.volume)
      case Some(Reducible) => acc.(reducible := acc.reducible + cmd.volume)
      case _ => acc
  }

  function ComputeScaleFactors(vol: VolumeSummary, p: real): ScaleFactors {
    if p >= 0.0 then
      if vol.boostable <= 0.0 then UNCHANGED
      else ScaleFactors(1.0 + p * vol.reducible / vol.boostable, 1.0 - p)
    else
      if vol.reducible <= 0.0 then UNCHANGED
      else ScaleFactors(1.0 + p, 1.0 - p * vol.boostable / vol.reducible)
  }

  function ScaleCommand(cmd: Command, scales: ScaleFactors, store: IngredientStore): Command {
    if !cmd.Dispense? then cmd
    else
      match FindById(store, cmd.ingredient)
      case Some(Boostable) => cmd.(volume := cmd.volume * scales.boostable)
      case Some(Reducible) => cmd.(volume := cmd.volume * scales.reducible)
      case _ => cmd
  }

  function Booster(scales: ScaleFactors, store: IngredientStore): Command -> Command {
    c => ScaleCommand(c, scales, store)
  }

  function Accumulator(store: IngredientStore): (VolumeSummary, Command) -> VolumeSummary {
    (acc, c) => AccumulateVolumes(acc, c, store)
  }

  function Volumes(commands: Commands, store: IngredientStore): VolumeSummary {
    FoldCommands(commands, VolumeSummary(0.0, 0.0), Accumulator(store))
  }

  /** Boosting by `p`, once `p` is known to matter. */
  function BoostBy(commands: Commands, p: real, store: IngredientStore): Commands {
    MapCommands(commands, Booster(ComputeScaleFactors(Volumes(commands, store), p), store))
  }

  function BoostRecipe(commands: Commands, boostPercent: real, store: IngredientStore): Commands
    requires Abs(boostPercent) <= 100.0
  {
    var p := boostPercent / 100.0;
    if Abs(p) < EPSILON then commands else BoostBy(commands, p, store)
  }

  datatype BoostSummary = BoostSummary(hasBoostables: bool, hasReducibles: bool)

  /** One step of the check, which stops looking once it has seen both categories. */
  function SummarizeBoostables(acc: BoostSummary, cmd: Command, store: IngredientStore): BoostSummary {
    if acc.hasBoostables && acc.hasReducibles then acc
    else if !cmd.Dispense? then acc
    else
      match FindById(store, cmd.ingredient)
      case Some(Boostable) => BoostSummary(true, acc.hasReducibles)
      case Some(Reducible) => BoostSummary(acc.hasBoostables, true)
      case _ => acc
  }

  function Summarizer(store: IngredientStore): (BoostSummary, Command) -> BoostSummary {
    (acc, c) => SummarizeBoostables(acc, c, store)
  }

  predicate IsRecipeBoostable(commands: Commands, store: IngredientStore) {
    var summary := FoldCommands(commands, BoostSummary(false, false), Summarizer(store));
    summary.hasBoostables && summary.hasReducibles
  }

  // ---- The folds, without the folding ----

  lemma {:induction false} AccumulateSeq(cmds: seq<Command>, acc: VolumeSummary, store: IngredientStore)
    ensures FoldSeq(cmds, acc, Accumulator(store))
            == VolumeSummary(acc.boostable + Sum(cmds, store, Of(Boostable)),
                             acc.reducible + Sum(cmds, store, Of(Reducible)))
    decreases |cmds|
  {
    if cmds != [] {
      AccumulateSeq(cmds[1..], AccumulateVolumes(acc, cmds[0], store), store);
    }
  }

  lemma VolumesAreTotals(commands: Commands, store: IngredientStore)
    ensures Volumes(commands, store)
            == VolumeSummary(TotalOf(commands, store, Of(Boostable)), TotalOf(commands, store, Of(Reducible)))
  {
    FoldLeaves(commands, VolumeSummary(0.0, 0.0), Accumulator(store));
    AccumulateSeq(Leaves(commands), VolumeSummary(0.0, 0.0), store);
  }

  predicate Has(cmds: seq<Command>, store: IngredientStore, category: BoostCategory) {
    exists c <- cmds :: Category(c, store) == Some(category)
  }

  lemma {:induction false} SummarizeSeq(cmds: seq<Command>, acc: BoostSummary, store: IngredientStore)
    ensures FoldSeq(cmds, acc, Summarizer(store))
            == BoostSummary(acc.hasBoostables || Has(cmds, store, Boostable),
                            acc.hasReducibles || Has(cmds, store, Reducible))
    decreases |cmds|
  {
    if cmds != [] {
      SummarizeSeq(cmds[1..], SummarizeBoostables(acc, cmds[0], store), store);
      HasFront(cmds, store, Boostable);
      HasFront(cmds, store, Reducible);
    }
  }

  lemma HasFront(cmds: seq<Command>, store: IngredientStore, category: BoostCategory)
    requires cmds != []
    ensures Has(cmds, store, category)
            <==> Category(cmds[0], store) == Some(category) || Has(cmds[1..], store, category)
  {
  }

  /** Stopping early does not change the answer. */
  lemma BoostableHasBoth(commands: Commands, store: IngredientStore)
    ensures IsRecipeBoostable(commands, store)
            <==> Has(Leaves(commands), store, Boostable) && Has(Leaves(commands), store, Reducible)
  {
    FoldLeaves(commands, BoostSummary(false, false), Summarizer(store));
    SummarizeSeq(Leaves(commands), BoostSummary(false, false), store);
  }

  // ---- Conservation ----

  lemma MappedVolumes(commands: Commands, fn: Command -> Command, store: IngredientStore, hb: real -> real, hr: real -> real)
    requires Additive(hb) && AppliesTo(fn, store, Of(Boostable), hb)
    requires Additive(hr) && AppliesTo(fn, store, Of(Reducible), hr)
    ensures Volumes(MapCommands(commands, fn), store)
            == VolumeSummary(hb(Volumes(commands, store).boostable), hr(Volumes(commands, store).reducible))
  {
    VolumesAreTotals(commands, store);
    VolumesAreTotals(MapCommands(commands, fn), store);
    TotalOfMapped(commands, fn, store, Of(Boostable), hb);
    TotalOfMapped(commands, fn, store, Of(Reducible), hr);
  }

  function PartFactor(scales: ScaleFactors, part: Part): real {
    if part == Of(Boostable) then scales.boostable else if part == Of(Reducible) then scales.reducible else 1.0
  }

  lemma BoosterApplies(scales: ScaleFactors, store: IngredientStore, part: Part)
    ensures Additive(Times(PartFactor(scales, part)))
    ensures AppliesTo(Booster(scales, store), store, part, Times(PartFactor(scales, part)))
  {
    var h := Times(PartFactor(scales, part));
    TimesIsAdditive(PartFactor(scales, part));
    forall c ensures AppliesAt(Booster(scales, store)(c), store, part, h, c) {
    }
  }

  /** What boosting does to the volume of each category. */
  function Shifted(vol: VolumeSummary, p: real): VolumeSummary {
    if p >= 0.0 && vol.boostable > 0.0
    then VolumeSummary(vol.boostable + p * vol.reducible, (1.0 - p) * vol.reducible)
    else if p < 0.0 && vol.reducible > 0.0
    then VolumeSummary((1.0 + p) * vol.boostable, vol.reducible - p * vol.boostable)
    else vol
  }

  lemma FactorsShift(vol: VolumeSummary, p: real)
    ensures var scales := ComputeScaleFactors(vol, p);
            VolumeSummary(vol.boostable * scales.boostable, vol.reducible * scales.reducible) == Shifted(vol, p)
    ensures Shifted(vol, p).boostable + Shifted(vol, p).reducible == vol.boostable + vol.reducible
  {
  }

  lemma BoostedVolumes(commands: Commands, p: real, store: IngredientStore)
    ensures Volumes(BoostBy(commands, p, store), store) == Shifted(Volumes(commands, store), p)
  {
    var vol := Volumes(commands, store);
    var scales := ComputeScaleFactors(vol, p);
    BoosterApplies(scales, store, Of(Boostable));
    BoosterApplies(scales, store, Of(Reducible));
    MappedVolumes(commands, Booster(scales, store), store, Times(scales.boostable), Times(scales.reducible));
    FactorsShift(vol, p);
  }

  lemma BoostedSum(commands: Commands, p: real, store: IngredientStore)
    ensures var vol, vol' := Volumes(commands, store), Volumes(BoostBy(commands, p, store), store);
            vol'.boostable + vol'.reducible == vol.boostable + vol.reducible
  {
    BoostedVolumes(commands, p, store);
    FactorsShift(Volumes(commands, store), p);
  }

  lemma BoostedRest(commands: Commands, p: real, store: IngredientStore)
    ensures TotalOf(BoostBy(commands, p, store), store, Rest) == TotalOf(commands, store, Rest)
  {
    var scales := ComputeScaleFactors(Volumes(commands, store), p);
    BoosterApplies(scales, store, Rest);
    TotalOfMapped(commands, Booster(scales, store), store, Rest, Times(1.0));
  }

  lemma BoostedTotal(commands: Commands, p: real, store: IngredientStore)
    ensures Total(BoostBy(commands, p, store)) == Total(commands)
  {
    var after := BoostBy(commands, p, store);
    BoostedSum(commands, p, store);
    BoostedRest(commands, p, store);
    VolumesAreTotals(commands, store);
    VolumesAreTotals(after, store);
    SumsSplit(Leaves(commands), store);
    SumsSplit(Leaves(after), store);
  }

  /** Boosting by `p` moves the share `p` of the reducible volume to the boostable ingredients, or for a negative `p`
      the share `-p` of the boostable volume to the reducible ones, and conserves the total volume. */
  lemma BoostConserves(commands: Commands, boostPercent: real, store: IngredientStore)
    requires Abs(boostPercent) <= 100.0
    ensures var after, p := BoostRecipe(commands, boostPercent, store), boostPercent / 100.0;
            && Total(after) == Total(commands)
            && (Abs(p) >= EPSILON ==> Volumes(after, store) == Shifted(Volumes(commands, store), p))
  {
    var p := boostPercent / 100.0;
    if Abs(p) >= EPSILON {
      BoostedTotal(commands, p, store);
      BoostedVolumes(commands, p, store);
    }
  }

  lemma FactorsNonNegative(vol: VolumeSummary, p: real)
    requires -1.0 <= p <= 1.0 && vol.boostable >= 0.0 && vol.reducible >= 0.0
    ensures var scales := ComputeScaleFactors(vol, p);
            scales.boostable >= 0.0 && scales.reducible >= 0.0
  {
  }

  /** Boosting keeps the tree, the ids and every fixed, unknown and manual command, and never makes a volume negative. */
  lemma BoostKeepsRest(commands: Commands, boostPercent: real, store: IngredientStore)
    requires Abs(boostPercent) <= 100.0
    ensures var after := BoostRecipe(commands, boostPercent, store);
            && SameShape(commands, after)
            && |Leaves(after)| == |Leaves(commands)|
            && (forall i | 0 <= i < |Leaves(commands)| && InPart(Leaves(commands)[i], store, Rest) ::
                  Leaves(after)[i] == Leaves(commands)[i])
            && (NonNegative(commands) ==> NonNegative(after))
  {
    var p := boostPercent / 100.0;
    ShapeIsReflexive(commands);
    if Abs(p) >= EPSILON {
      var booster := Booster(ComputeScaleFactors(Volumes(commands, store), p), store);
      MapKeepsShape(commands, booster);
      LeavesMap(commands, booster);
      MapSeqAt(Leaves(commands), booster);
      if NonNegative(commands) {
        BoostKeepsNonNegative(commands, p, store);
      }
    }
  }

  lemma BoostKeepsNonNegative(commands: Commands, p: real, store: IngredientStore)
    requires -1.0 <= p <= 1.0 && NonNegative(commands)
    ensures NonNegative(BoostBy(commands, p, store))
  {
    VolumeSigns(commands, store);
    FactorsNonNegative(Volumes(commands, store), p);
    var scales := ComputeScaleFactors(Volumes(commands, store), p);
    forall c ensures KeepsSignAt(Booster(scales, store), c) {
    }
    MapKeepsNonNegative(commands, Booster(scales, store));
  }

  // ---- Boosting and scaling commute ----

  lemma ScaledVolumes(commands: Commands, factor: real, store: IngredientStore)
    ensures Volumes(ScaleCommandsUniformly(commands, factor), store)
            == VolumeSummary(Volumes(commands, store).boostable * factor, Volumes(commands, store).reducible * factor)
  {
    ScalerApplies(factor, store, Of(Boostable));
    ScalerApplies(factor, store, Of(Reducible));
    MappedVolumes(commands, Scaler(factor), store, Times(factor), Times(factor));
  }

  lemma FactorsOfScaled(vol: VolumeSummary, factor: real, p: real)
    requires factor > 0.0
    ensures ComputeScaleFactors(VolumeSummary(vol.boostable * factor, vol.reducible * factor), p)
            == ComputeScaleFactors(vol, p)
  {
  }

  /** Scaling before or after boosting gives the same commands: for every tree, even with negative volumes, every boost
      from -100 to 100 percent and every target volume, zero included. */
  lemma BoostAndScaleCommute(commands: Commands, boostPercent: real, store: IngredientStore, nominal: real, target: real)
    requires Abs(boostPercent) <= 100.0 && nominal > 0.0 && target >= 0.0
    ensures BoostRecipe(ScaleRecipe(commands, nominal, target), boostPercent, store)
            == ScaleRecipe(BoostRecipe(commands, boostPercent, store), nominal, target)
  {
    var p, factor := boostPercent / 100.0, target / nominal;
    if Abs(p) >= EPSILON && !NearIdentity(factor) {
      assert factor >= 0.0;
      BoostByAndScaleCommute(commands, p, store, factor);
    }
  }

  lemma BoostByAndScaleCommute(commands: Commands, p: real, store: IngredientStore, factor: real)
    requires factor >= 0.0
    ensures BoostBy(ScaleCommandsUniformly(commands, factor), p, store)
            == ScaleCommandsUniformly(BoostBy(commands, p, store), factor)
  {
    var vol := Volumes(commands, store);
    var scales := ComputeScaleFactors(vol, p);
    var scales' := ComputeScaleFactors(Volumes(ScaleCommandsUniformly(commands, factor), store), p);
    ScaledVolumes(commands, factor, store);
    if factor > 0.0 {
      FactorsOfScaled(vol, factor, p);
    }
    MapsCommute(commands, factor, scales, scales', store);
  }

  lemma MapsCommute(commands: Commands, factor: real, scales: ScaleFactors, scales': ScaleFactors, store: IngredientStore)
    requires factor == 0.0 || scales == scales'
    ensures MapCommands(MapCommands(commands, Scaler(factor)), Booster(scales', store))
            == MapCommands(MapCommands(commands, Booster(scales, store)), Scaler(factor))
  {
    var both := (c: Command) => ScaleCommandVolume(ScaleCommand(c, scales, store), factor);
    forall c ensures ComposesAt(Scaler(factor), Booster(scales', store), both, c) {
      PassesCommute(c, factor, scales, scales', store);
    }
    forall c ensures ComposesAt(Booster(scales, store), Scaler(factor), both, c) {
    }
    MapTwice(commands, Scaler(factor), Booster(scales', store), both);
    MapTwice(commands, Booster(scales, store), Scaler(factor), both);
  }

  lemma PassesCommute(c: Command, factor: real, scales: ScaleFactors, scales': ScaleFactors, store: IngredientStore)
    requires factor == 0.0 || scales == scales'
    ensures ScaleCommand(ScaleCommandVolume(c, factor), scales', store)
            == ScaleCommandVolume(ScaleCommand(c, scales, store), factor)
  {
  }

  /** What a glass gets: if the recipe's commands do not exceed its nominal volume, scaling and then boosting dispenses
      at most the target volume, up to the width of the near-identity shortcut. */
  lemma GlassDoesNotOverflow(commands: Commands, boostPercent: real, store: IngredientStore, nominal: real, target: real)
    requires Abs(boostPercent) <= 100.0 && nominal > 0.0 && target >= 0.0
    requires Total(commands) <= nominal
    ensures Total(BoostRecipe(ScaleRecipe(commands, nominal, target), boostPercent, store))
            <= target + if NearIdentity(target / nominal) then 4.0 * EPSILON * nominal else 0.0
  {
    ScaledTotal(commands, nominal, target);
    BoostConserves(ScaleRecipe(commands, nominal, target), boostPercent, store);
    if NearIdentity(target / nominal) {
      NominalNearTarget(nominal, target);
    } else {
      ShareOfTarget(Total(commands), nominal, target);
    }
  }

  lemma NominalNearTarget(nominal: real, target: real)
    requires nominal > 0.0 && NearIdentity(target / nominal)
    ensures nominal <= target + 4.0 * EPSILON * nominal
  {
  }

  lemma ShareOfTarget(total: real, nominal: real, target: real)
    requires nominal > 0.0 && target >= 0.0 && total <= nominal
    ensures total * (target / nominal) <= target
  {
  }

  // ---- When boosting changes anything ----

  /** For volumes that are not negative, a boost of at least one epsilon changes the commands exactly when both
      categories have volume. */
  lemma ChangedExactlyWithBothVolumes(commands: Commands, boostPercent: real, store: IngredientStore)
    requires EPSILON <= Abs(boostPercent / 100.0) && Abs(boostPercent) <= 100.0 && NonNegative(commands)
    ensures BoostRecipe(commands, boostPercent, store) != commands
            <==> Volumes(commands, store).boostable > 0.0 && Volumes(commands, store).reducible > 0.0
  {
    BoostByChanges(commands, boostPercent / 100.0, store);
  }

  lemma VolumeSigns(commands: Commands, store: IngredientStore)
    requires NonNegative(commands)
    ensures var vol := Volumes(commands, store);
            && vol.boostable >= 0.0 && vol.reducible >= 0.0
            && (vol.boostable == 0.0 <==> forall c <- Leaves(commands) :: InPart(c, store, Of(Boostable)) ==> Volume(c) == 0.0)
            && (vol.reducible == 0.0 <==> forall c <- Leaves(commands) :: InPart(c, store, Of(Reducible)) ==> Volume(c) == 0.0)
  {
    VolumesAreTotals(commands, store);
    NonNegativeSum(Leaves(commands), store, Of(Boostable));
    NonNegativeSum(Leaves(commands), store, Of(Reducible));
  }

  lemma BoostByChanges(commands: Commands, p: real, store: IngredientStore)
    requires p != 0.0 && NonNegative(commands)
    ensures var vol := Volumes(commands, store);
            BoostBy(commands, p, store) != commands <==> vol.boostable > 0.0 && vol.reducible > 0.0
  {
    var vol := Volumes(commands, store);
    var scales := ComputeScaleFactors(vol, p);
    VolumeSigns(commands, store);
    MapCommandsFixed(commands, Booster(scales, store));
    if vol.boostable > 0.0 && vol.reducible > 0.0 {
      var c :| c in Leaves(commands) && InPart(c, store, Of(Boostable)) && Volume(c) != 0.0;
      LeafChanged(c, vol, p, scales, store);
    } else {
      forall c <- Leaves(commands) ensures Booster(scales, store)(c) == c {
        LeafUnchanged(c, vol, p, scales, store);
      }
    }
  }

  lemma LeafChanged(c: Command, vol: VolumeSummary, p: real, scales: ScaleFactors, store: IngredientStore)
    requires scales == ComputeScaleFactors(vol, p) && p != 0.0
    requires vol.boostable > 0.0 && vol.reducible > 0.0
    requires InPart(c, store, Of(Boostable)) && Volume(c) != 0.0
    ensures Booster(scales, store)(c) != c
  {
  }

  lemma LeafUnchanged(c: Command, vol: VolumeSummary, p: real, scales: ScaleFactors, store: IngredientStore)
    requires scales == ComputeScaleFactors(vol, p) && (vol.boostable == 0.0 || vol.reducible == 0.0)
    requires vol.boostable >= 0.0 && vol.reducible >= 0.0
    requires InPart(c, store, Of(Boostable)) && vol.boostable == 0.0 ==> Volume(c) == 0.0
    requires InPart(c, store, Of(Reducible)) && vol.reducible == 0.0 ==> Volume(c) == 0.0
    ensures ScaleCommand(c, scales, store) == c
  {
  }

  /** When every dispensed volume is positive, `is_recipe_boostable` tells exactly whether a boost changes anything. */
  lemma ChangedExactlyWhenBoostable(commands: Commands, boostPercent: real, store: IngredientStore)
    requires EPSILON <= Abs(boostPercent / 100.0) && Abs(boostPercent) <= 100.0
    requires forall c <- Leaves(commands) :: c.Dispense? ==> c.volume > 0.0
    ensures BoostRecipe(commands, boostPercent, store) != commands <==> IsRecipeBoostable(commands, store)
  {
    ChangedExactlyWithBothVolumes(commands, boostPercent, store);
    BoostableHasBoth(commands, store);
    VolumeSigns(commands, store);
  }

  // ---- What boosting does, by the ingredients themselves ----

  /** The store says that what this command dispenses is of this category. */
  predicate IsOf(c: Command, store: IngredientStore, category: BoostCategory) {
    c.Dispense? && c.ingredient in store && store[c.ingredient] == category
  }

  /** The volume of all that the commands dispense of one category. */
  function VolumeOf(cmds: seq<Command>, store: IngredientStore, category: BoostCategory): real {
    if cmds == [] then 0.0
    else (if IsOf(cmds[0], store, category) then cmds[0].volume else 0.0) + VolumeOf(cmds[1..], store, category)
  }

  lemma {:induction false} VolumeOfIsSum(cmds: seq<Command>, store: IngredientStore, category: BoostCategory)
    ensures VolumeOf(cmds, store, category) == Sum(cmds, store, Of(category))
    decreases |cmds|
  {
    if cmds != [] {
      VolumeOfIsSum(cmds[1..], store, category);
    }
  }

  lemma VolumesByCategory(commands: Commands, store: IngredientStore)
    ensures Volumes(commands, store)
            == VolumeSummary(VolumeOf(Leaves(commands), store, Boostable), VolumeOf(Leaves(commands), store, Reducible))
  {
    VolumeOfIsSum(Leaves(commands), store, Boostable);
    VolumeOfIsSum(Leaves(commands), store, Reducible);
    VolumesAreTotals(commands, store);
  }

  /** The volumes `b` and `r` after a share `p` of the one has moved to the other: from the reducible to the boostable
      volume, or for a negative share the other way. Nothing moves to where there is nothing. */
  predicate HasMoved(b: real, r: real, p: real, b': real, r': real) {
    if p > 0.0 && b > 0.0 then b' == b + p * r && r' == r - p * r
    else if p < 0.0 && r > 0.0 then b' == b + p * b && r' == r - p * b
    else b' == b && r' == r
  }

  lemma ShiftMoves(vol: VolumeSummary, p: real)
    ensures HasMoved(vol.boostable, vol.reducible, p, Shifted(vol, p).boostable, Shifted(vol, p).reducible)
  {
  }

  lemma BoostByMoves(commands: Commands, p: real, store: IngredientStore, before: seq<Command>, after: seq<Command>)
    requires before == Leaves(commands) && after == Leaves(BoostBy(commands, p, store))
    ensures HasMoved(VolumeOf(before, store, Boostable), VolumeOf(before, store, Reducible), p,
                     VolumeOf(after, store, Boostable), VolumeOf(after, store, Reducible))
  {
    VolumesByCategory(commands, store);
    VolumesByCategory(BoostBy(commands, p, store), store);
    BoostedVolumes(commands, p, store);
    ShiftMoves(Volumes(commands, store), p);
  }

  /** Boosting by a share moves it between what the store calls reducible and what it calls boostable. A share below the
      machine epsilon counts as none. */
  lemma BoostMovesShare(commands: Commands, boostPercent: real, store: IngredientStore)
    requires Abs(boostPercent) <= 100.0
    ensures var p, before, after := boostPercent / 100.0, Leaves(commands), Leaves(BoostRecipe(commands, boostPercent, store));
            HasMoved(VolumeOf(before, store, Boostable), VolumeOf(before, store, Reducible), if Abs(p) < EPSILON then 0.0 else p,
                     VolumeOf(after, store, Boostable), VolumeOf(after, store, Reducible))
  {
    var p := boostPercent / 100.0;
    BoostByMoves(commands, p, store, Leaves(commands), Leaves(BoostBy(commands, p, store)));
  }

  /** Whatever the store does not call boostable or reducible is dispensed as before. */
  lemma BoostLeavesOthers(commands: Commands, boostPercent: real, store: IngredientStore, i: nat)
    requires Abs(boostPercent) <= 100.0 && i < |Leaves(commands)|
    ensures |Leaves(BoostRecipe(commands, boostPercent, store))| == |Leaves(commands)|
    ensures !IsOf(Leaves(commands)[i], store, Boostable) && !IsOf(Leaves(commands)[i], store, Reducible) ==>
              Leaves(BoostRecipe(commands, boostPercent, store))[i] == Leaves(commands)[i]
  {
    BoostKeepsRest(commands, boostPercent, store);
  }

  /** The check tells whether some command dispenses what the store calls boostable, and some what it calls reducible. */
  lemma BoostableHasBothKinds(commands: Commands, store: IngredientStore)
    ensures IsRecipeBoostable(commands, store)
            <==> (exists c <- Leaves(commands) :: IsOf(c, store, Boostable)) && (exists c <- Leaves(commands) :: IsOf(c, store, Reducible))
  {
    BoostableHasBoth(commands, store);
  }

  lemma WholePercentCounts(percent: int)
    requires percent != 0
    ensures Abs(percent as real / 100.0) >= EPSILON
  {
    assert Abs(percent as real) >= 1.0;
  }

  /** Every whole percent counts. */
  lemma WholePercentMoves(commands: Commands, percent: int, store: IngredientStore)
    requires -100 <= percent <= 100
    ensures var before, after := Leaves(commands), Leaves(BoostRecipe(commands, percent as real, store));
            HasMoved(VolumeOf(before, store, Boostable), VolumeOf(before, store, Reducible), percent as real / 100.0,
                     VolumeOf(after, store, Boostable), VolumeOf(after, store, Reducible))
  {
    BoostMovesShare(commands, percent as real, store);
    if percent != 0 {
      WholePercentCounts(percent);
    }
  }

  /** A recipe that counts as boostable and does not change: its only boostable command has no volume. */
  lemma BoostableUnchangedExample(boostable: string, reducible: string)
    requires boostable != reducible
    ensures var commands := [Single(Dispense(1, boostable, 0.0)), Single(Dispense(2, reducible, 10.0))];
            var store: IngredientStore := map[boostable := Boostable, reducible := Reducible];
            IsRecipeBoostable(commands, store) && BoostRecipe(commands, 50.0, store) == commands
  {
    var store: IngredientStore := map[boostable := Boostable, reducible := Reducible];
    var first, second := Dispense(1, boostable, 0.0), Dispense(2, reducible, 10.0);
    var commands := [Single(first), Single(second)];
    assert commands[1..] == [Single(second)] && commands[1..][1..] == [];
    assert Leaves(commands[1..]) == [second] + Leaves([]);
    assert Leaves(commands) == [first] + ([second] + []);
    BoostableHasBoth(commands, store);
    assert first in Leaves(commands) && second in Leaves(commands);
    VolumeSigns(commands, store);
    ChangedExactlyWithBothVolumes(commands, 50.0, store);
  }
}
