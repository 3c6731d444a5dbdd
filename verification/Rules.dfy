/** Rules (src/rules.c): applying a rule saves what it overwrites, and a reload restores it
    before the new rules are applied. */
module Rules {
  import opened Notifications

  datatype NumberField =
    | DbusTimeout | Transient | Timeout | Urgency | HistoryIgnore | SkipDisplay | WordWrap | Ellipsize
    | Alignment | HideText | ProgressBarAlignment | MinIconSize | MaxIconSize | IconPlace | OverridePauseLevel

  datatype EnumField = FullscreenMode | Markup

  datatype ColorField = Foreground | Background | FrameColor

  datatype TextField = ActionName | Category | DefaultIcon | StackTag | FormatString

  /** The fields a rule sets by plain assignment, by the marker they use. */
  datatype Field = Number(n: NumberField) | Enum(e: EnumField) | Paint(c: ColorField) | Highlight | Label(t: TextField)

  datatype Value = Num(n: int) | Color(r: real, g: real, b: real, a: real) | Gradient(id: Option<nat>)
    | Text(t: Option<string>)

  /** The marker that says "this rule does not set the field". */
  function Marker(f: Field): Value {
    match f
    case Number(_) => Num(-1)
    case Enum(_) => Num(0)
    case Paint(_) => Color(-1.0, -1.0, -1.0, -1.0)
    case Highlight => Gradient(None)
    case Label(_) => Text(None)
  }

  /** A value for every field. */
  type Props = Field -> Value

  /** `empty_rule` */
  const EMPTY_RULE: Props := f => Marker(f)

  predicate InUnit(x: real) { 0.0 <= x <= 1.0 }

  /** Fields are compared with the marker, except that any invalid color is one. */
  predicate Unset(f: Field, v: Value) {
    if f.Paint? then !ValidColor(v) else v == Marker(f)
  }

  /** `COLOR_VALID` */
  predicate ValidColor(v: Value) {
    v.Color? && InUnit(v.r) && InUnit(v.g) && InUnit(v.b) && InUnit(v.a)
  }

  /** The texts a filter may look at and no assignment of a rule changes. */
  datatype Facts = Facts(appname: Option<string>, desktopEntry: Option<string>, summary: Option<string>,
                         body: Option<string>, icon: Option<string>)

  /** A rule: its filters, and the values it sets. */
  datatype Rule = Rule(
    enabled: bool,
    msgUrgency: int,
    matchDbusTimeout: int,
    matchTransient: int,
    appname: string,
    desktopEntry: string,
    summary: string,
    body: string,
    icon: string,
    category: string,
    stackTag: string,
    sets: Props
  )

  /** The notification as rules see it; `original` holds what was overwritten. */
  datatype Ruled = Ruled(props: Props, original: Option<Props>)

  /** fnmatch, POSIX or PCRE: whether a value matches a pattern. */
  type Engine = (string, string) -> bool

  /** `rule_field_matches_string` */
  predicate FieldMatches(engine: Engine, value: Option<string>, pattern: string) {
    if pattern == "" then true
    else if value.None? then false
    else engine(value.value, pattern)
  }

  function TextOf(v: Value): Option<string> {
    if v.Text? then v.t else None
  }

  /** `rule_matches_notification` */
  predicate Matches(engine: Engine, r: Rule, facts: Facts, n: Props) {
    && r.enabled
    && (r.msgUrgency == -1 || Num(r.msgUrgency) == n(Number(Urgency)))
    && (r.matchDbusTimeout < 0 || Num(r.matchDbusTimeout) == n(Number(DbusTimeout)))
    && (r.matchTransient == -1 || Num(r.matchTransient) == n(Number(Transient)))
    && FieldMatches(engine, facts.appname, r.appname)
    && FieldMatches(engine, facts.desktopEntry, r.desktopEntry)
    && FieldMatches(engine, facts.summary, r.summary)
    && FieldMatches(engine, facts.body, r.body)
    && FieldMatches(engine, facts.icon, r.icon)
    && FieldMatches(engine, TextOf(n(Label(Category))), r.category)
    && FieldMatches(engine, TextOf(n(Label(StackTag))), r.stackTag)
  }

  // ---------- applying ----------

  /** The notification after a rule: what the rule sets, and otherwise what it was. */
  function Applied(r: Props, n: Props): Props {
    f => if Unset(f, r(f)) then n(f) else r(f)
  }

  /** What is saved: the first value a rule overwrites. */
  function Saved(r: Props, n: Props, original: Props): Props {
    f => if !Unset(f, r(f)) && Unset(f, original(f)) then n(f) else original(f)
  }

  /** `rule_apply` */
  function Apply(r: Props, n: Ruled, save: bool): Ruled {
    if save then Ruled(Applied(r, n.props), Some(Saved(r, n.props, Base(n))))
    else Ruled(Applied(r, n.props), n.original)
  }

  /** `rule_apply_all` */
  function ApplyAll(engine: Engine, rules: seq<Rule>, facts: Facts, n: Ruled): Ruled {
    if rules == [] then n
    else ApplyAll(engine, rules[1..], facts,
                  if Matches(engine, rules[0], facts, n.props) then Apply(rules[0].sets, n, true) else n)
  }

  /** One notification in `queues_reapply_all_rules`. */
  function Reapply(engine: Engine, rules: seq<Rule>, facts: Facts, n: Ruled): Ruled {
    ApplyAll(engine, rules, facts, if n.original.Some? then Apply(n.original.value, n, false) else n)
  }

  /** A notification that arrived with some values and lived through some rule lists. */
  function History(engine: Engine, lists: seq<seq<Rule>>, facts: Facts, n: Ruled): Ruled
    decreases |lists|
  {
    if lists == [] then n else History(engine, lists[1..], facts, Reapply(engine, lists[0], facts, n))
  }

  // ---------- what a reload restores ----------

  /** Arrival values that are no markers can be told apart from "nothing saved". */
  ghost predicate Restorable(arrival: Props, f: Field) {
    !Unset(f, arrival(f))
  }

  /** The notification still knows its arrival values. */
  ghost predicate Remembers(arrival: Props, n: Ruled) {
    forall f: Field :: RemembersField(arrival, n, f)
  }

  ghost predicate RemembersField(arrival: Props, n: Ruled, f: Field) {
    Restorable(arrival, f) ==>
      if n.original.Some? && !Unset(f, n.original.value(f)) then n.original.value(f) == arrival(f)
      else n.props(f) == arrival(f)
  }

  ghost predicate AgreeField(arrival: Props, n: Props, m: Props, f: Field) {
    Restorable(arrival, f) ==> n(f) == m(f)
  }

  ghost predicate Agree(arrival: Props, n: Props, m: Props) {
    forall f: Field :: AgreeField(arrival, n, m, f)
  }

  /** The rule looks at restorable fields only. */
  ghost predicate Observes(arrival: Props, r: Rule) {
    && (r.msgUrgency != -1 ==> Restorable(arrival, Number(Urgency)))
    && (r.matchDbusTimeout >= 0 ==> Restorable(arrival, Number(DbusTimeout)))
    && (r.matchTransient != -1 ==> Restorable(arrival, Number(Transient)))
    && (r.category != "" ==> Restorable(arrival, Label(Category)))
    && (r.stackTag != "" ==> Restorable(arrival, Label(StackTag)))
  }

  ghost predicate AllObserve(arrival: Props, rules: seq<Rule>) {
    forall r | r in rules :: Observes(arrival, r)
  }

  lemma ApplyRemembersField(arrival: Props, r: Props, n: Ruled, f: Field)
    requires RemembersField(arrival, n, f)
    ensures RemembersField(arrival, Apply(r, n, true), f)
  {
    assert Unset(f, EMPTY_RULE(f));
  }

  lemma ApplyRemembers(arrival: Props, r: Props, n: Ruled)
    requires Remembers(arrival, n)
    ensures Remembers(arrival, Apply(r, n, true))
  {
    forall f ensures RemembersField(arrival, Apply(r, n, true), f) {
      ApplyRemembersField(arrival, r, n, f);
    }
  }

  lemma RestoreField(arrival: Props, n: Ruled, f: Field)
    requires RemembersField(arrival, n, f) && n.original.Some?
    ensures var m := Apply(n.original.value, n, false);
            RemembersField(arrival, m, f) && AgreeField(arrival, m.props, arrival, f)
  {
  }

  lemma RestoreRemembers(arrival: Props, n: Ruled)
    requires Remembers(arrival, n) && n.original.Some?
    ensures var m := Apply(n.original.value, n, false);
            Remembers(arrival, m) && Agree(arrival, m.props, arrival)
  {
    var m := Apply(n.original.value, n, false);
    forall f ensures RemembersField(arrival, m, f) && AgreeField(arrival, m.props, arrival, f) {
      assert RemembersField(arrival, n, f);
      RestoreField(arrival, n, f);
    }
  }

  lemma MatchesAgree(engine: Engine, arrival: Props, r: Rule, facts: Facts, n: Props, m: Props)
    requires Agree(arrival, n, m) && Observes(arrival, r)
    ensures Matches(engine, r, facts, n) <==> Matches(engine, r, facts, m)
  {
    assert AgreeField(arrival, n, m, Number(Urgency)) && AgreeField(arrival, n, m, Number(DbusTimeout));
    assert AgreeField(arrival, n, m, Number(Transient)) && AgreeField(arrival, n, m, Label(Category));
    assert AgreeField(arrival, n, m, Label(StackTag));
  }

  /** One rule of `rule_apply_all`. */
  function ApplyOne(engine: Engine, r: Rule, facts: Facts, n: Ruled): Ruled {
    if Matches(engine, r, facts, n.props) then Apply(r.sets, n, true) else n
  }

  lemma ApplyOneAgrees(engine: Engine, arrival: Props, r: Rule, facts: Facts, n: Ruled, m: Ruled)
    requires Agree(arrival, n.props, m.props) && Observes(arrival, r)
    ensures Agree(arrival, ApplyOne(engine, r, facts, n).props, ApplyOne(engine, r, facts, m).props)
  {
    MatchesAgree(engine, arrival, r, facts, n.props, m.props);
    forall f ensures AgreeField(arrival, Applied(r.sets, n.props), Applied(r.sets, m.props), f) {
      assert AgreeField(arrival, n.props, m.props, f);
    }
  }

  lemma {:induction false} ApplyAllRemembers(engine: Engine, arrival: Props, rules: seq<Rule>, facts: Facts, n: Ruled)
    requires Remembers(arrival, n)
    ensures Remembers(arrival, ApplyAll(engine, rules, facts, n))
  {
    if rules != [] {
      ApplyRemembers(arrival, rules[0].sets, n);
      ApplyAllRemembers(engine, arrival, rules[1..], facts, ApplyOne(engine, rules[0], facts, n));
    }
  }

  /** Equal restorable fields stay equal under the same rules, whatever was saved. */
  lemma {:induction false} ApplyAllAgrees(engine: Engine, arrival: Props, rules: seq<Rule>, facts: Facts, n: Ruled,
                                          m: Ruled)
    requires Agree(arrival, n.props, m.props) && AllObserve(arrival, rules)
    ensures Agree(arrival, ApplyAll(engine, rules, facts, n).props, ApplyAll(engine, rules, facts, m).props)
  {
    if rules != [] {
      var r := rules[0];
      assert r in rules;
      ApplyOneAgrees(engine, arrival, r, facts, n, m);
      ApplyAllAgrees(engine, arrival, rules[1..], facts, ApplyOne(engine, r, facts, n), ApplyOne(engine, r, facts, m));
    }
  }

  function Restored(n: Ruled): Ruled {
    if n.original.Some? then Apply(n.original.value, n, false) else n
  }

  lemma RestoredAgrees(arrival: Props, n: Ruled)
    requires Remembers(arrival, n)
    ensures Remembers(arrival, Restored(n)) && Agree(arrival, Restored(n).props, arrival)
  {
    if n.original.Some? {
      RestoreRemembers(arrival, n);
    } else {
      forall f ensures AgreeField(arrival, n.props, arrival, f) {
        assert RemembersField(arrival, n, f);
      }
    }
  }

  lemma ReapplyFromArrival(engine: Engine, arrival: Props, rules: seq<Rule>, facts: Facts, n: Ruled)
    requires Remembers(arrival, n) && AllObserve(arrival, rules)
    ensures Remembers(arrival, Reapply(engine, rules, facts, n))
    ensures Agree(arrival, Reapply(engine, rules, facts, n).props,
                  ApplyAll(engine, rules, facts, Ruled(arrival, None)).props)
  {
    RestoredAgrees(arrival, n);
    ApplyAllRemembers(engine, arrival, rules, facts, Restored(n));
    ApplyAllAgrees(engine, arrival, rules, facts, Restored(n), Ruled(arrival, None));
  }

  lemma {:induction false} HistoryRemembers(engine: Engine, arrival: Props, lists: seq<seq<Rule>>, facts: Facts,
                                            n: Ruled)
    requires Remembers(arrival, n)
    ensures Remembers(arrival, History(engine, lists, facts, n))
    decreases |lists|
  {
    if lists != [] {
      RestoredAgrees(arrival, n);
      ApplyAllRemembers(engine, arrival, lists[0], facts, Restored(n));
      HistoryRemembers(engine, arrival, lists[1..], facts, Reapply(engine, lists[0], facts, n));
    }
  }

  lemma {:induction false} HistorySnoc(engine: Engine, lists: seq<seq<Rule>>, last: seq<Rule>, facts: Facts, n: Ruled)
    ensures History(engine, lists + [last], facts, n) == Reapply(engine, last, facts, History(engine, lists, facts, n))
    decreases |lists|
  {
    if lists == [] {
      assert lists + [last] == [last];
      assert [last][1..] == [];
    } else {
      assert (lists + [last])[1..] == lists[1..] + [last];
      HistorySnoc(engine, lists[1..], last, facts, Reapply(engine, lists[0], facts, n));
    }
  }

  /** Reloading is independent of the past: after any sequence of rule lists, every
      restorable field is what the last list alone makes of the arrival values. */
  lemma ReloadForgetsThePast(engine: Engine, arrival: Props, lists: seq<seq<Rule>>, last: seq<Rule>, facts: Facts,
                             f: Field)
    requires Restorable(arrival, f)
    requires AllObserve(arrival, last)
    ensures Forgets(engine, arrival, facts, f, lists, last)
  {
    var n := Ruled(arrival, None);
    HistoryRemembers(engine, arrival, lists, facts, n);
    HistorySnoc(engine, lists, last, facts, n);
    ReapplyFromArrival(engine, arrival, last, facts, History(engine, lists, facts, n));
    assert AgreeField(arrival, History(engine, lists + [last], facts, n).props,
                      ApplyAll(engine, last, facts, n).props, f);
  }

  /** The past does not show in the field: it is what the last rule list makes of arrival. */
  ghost predicate Forgets(engine: Engine, arrival: Props, facts: Facts, f: Field, lists: seq<seq<Rule>>,
                          last: seq<Rule>) {
    History(engine, lists + [last], facts, Ruled(arrival, None)).props(f)
    == ApplyAll(engine, last, facts, Ruled(arrival, None)).props(f)
  }

  // ---------- where it does not ----------

  /** A rule without filters. */
  function Always(sets: Props): Rule {
    Rule(true, -1, -1, -1, "", "", "", "", "", "", "", sets)
  }

  /** Only rules without filters. */
  ghost predicate AllUnconditional(rules: seq<Rule>) {
    forall r | r in rules :: r == Always(r.sets)
  }

  function SomeValue(f: Field): (v: Value)
    ensures !Unset(f, v)
  {
    if f.Paint? then Color(0.0, 0.0, 0.0, 0.0) else if Marker(f) == Num(-1) then Num(1) else Num(-1)
  }

  lemma SetAndRestored(arrival: Props, f: Field, sets: Props)
    requires Unset(f, arrival(f)) && !Unset(f, sets(f))
    ensures var n := Apply(sets, Ruled(arrival, None), true);
            n.props(f) == sets(f) && Restored(n).props(f) == sets(f)
  {
    assert Unset(f, EMPTY_RULE(f));
    assert Saved(sets, arrival, EMPTY_RULE)(f) == arrival(f);
  }

  lemma SetOnce(engine: Engine, arrival: Props, facts: Facts, f: Field, sets: Props)
    requires Unset(f, arrival(f)) && !Unset(f, sets(f))
    ensures Reapply(engine, [], facts, Reapply(engine, [Always(sets)], facts, Ruled(arrival, None))).props(f) == sets(f)
  {
    var n := Ruled(arrival, None);
    var rules := [Always(sets)];
    assert rules[1..] == [];
    assert Matches(engine, Always(sets), facts, arrival);
    var m := Apply(sets, n, true);
    assert ApplyAll(engine, [], facts, m) == m;
    assert Matches(engine, rules[0], facts, n.props) && rules[0].sets == sets;
    assert ApplyAll(engine, rules, facts, n) == m;
    SetAndRestored(arrival, f, sets);
  }

  lemma MarkerIsNotRestored(engine: Engine, arrival: Props, facts: Facts, f: Field, sets: Props)
    requires Unset(f, arrival(f)) && !Unset(f, sets(f))
    ensures !Forgets(engine, arrival, facts, f, [[Always(sets)]], [])
  {
    var first, n := [Always(sets)], Ruled(arrival, None);
    SetOnce(engine, arrival, facts, f, sets);
    HistorySnoc(engine, [first], [], facts, n);
    assert [first][1..] == [];
    assert History(engine, [first], facts, n) == Reapply(engine, first, facts, n);
    assert arrival(f) != sets(f);
  }

  ghost predicate AlwaysForgets(engine: Engine, arrival: Props, facts: Facts, f: Field) {
    forall lists: seq<seq<Rule>>, last: seq<Rule>
      | (forall l | l in lists :: AllUnconditional(l)) && AllUnconditional(last)
      :: Forgets(engine, arrival, facts, f, lists, last)
  }

  /** The condition is exact: for rules without filters, reloading never shows the past in a
      field if and only if the field did not arrive as the marker. */
  lemma ReloadForgetsIff(engine: Engine, arrival: Props, facts: Facts, f: Field)
    ensures AlwaysForgets(engine, arrival, facts, f) <==> Restorable(arrival, f)
  {
    if Restorable(arrival, f) {
      forall lists: seq<seq<Rule>>, last: seq<Rule>
        | (forall l | l in lists :: AllUnconditional(l)) && AllUnconditional(last)
        ensures Forgets(engine, arrival, facts, f, lists, last)
      {
        forall l | l in lists + [last] ensures AllObserve(arrival, l) {
          assert AllUnconditional(l);
        }
        ReloadForgetsThePast(engine, arrival, lists, last, facts, f);
      }
    } else {
      MarkerShows(engine, arrival, facts, f);
    }
  }

  lemma MarkerShows(engine: Engine, arrival: Props, facts: Facts, f: Field)
    requires Unset(f, arrival(f))
    ensures !AlwaysForgets(engine, arrival, facts, f)
  {
    var sets: Props := g => if g == f then SomeValue(f) else Marker(g);
    var first := [Always(sets)];
    MarkerIsNotRestored(engine, arrival, facts, f, sets);
    assert AllUnconditional(first) && AllUnconditional([]);
    assert forall l | l in [first] :: AllUnconditional(l);
  }

  // ---------- the same on the notification object ----------

  function Base(n: Ruled): Props {
    if n.original.Some? then n.original.value else EMPTY_RULE
  }

  ghost predicate SameFields(p: Props, q: Props) {
    forall f: Field :: p(f) == q(f)
  }

  ghost predicate Same(n: Ruled, m: Ruled) {
    && SameFields(n.props, m.props)
    && n.original.Some? == m.original.Some?
    && (n.original.Some? ==> SameFields(n.original.value, m.original.value))
  }

  lemma ApplySame(r: Props, r': Props, n: Ruled, m: Ruled, save: bool)
    requires Same(n, m) && SameFields(r, r')
    ensures Same(Apply(r, n, save), Apply(r', m, save))
  {
  }

  lemma {:induction false} ApplyAllSame(engine: Engine, rules: seq<Rule>, facts: Facts, n: Ruled, m: Ruled)
    requires Same(n, m)
    ensures Same(ApplyAll(engine, rules, facts, n), ApplyAll(engine, rules, facts, m))
  {
    if rules != [] {
      assert Matches(engine, rules[0], facts, n.props) <==> Matches(engine, rules[0], facts, m.props);
      ApplySame(rules[0].sets, rules[0].sets, n, m, true);
      ApplyAllSame(engine, rules[1..], facts, ApplyOne(engine, rules[0], facts, n),
                   ApplyOne(engine, rules[0], facts, m));
    }
  }

  /** The order in which `rule_apply` treats the fields. */
  function Order(f: Field): nat {
    match f
    case Highlight => 19
    case Number(n) => (
      match n
      case DbusTimeout => 0
      case Transient => 1
      case Timeout => 2
      case Urgency => 3
      case HistoryIgnore => 5
      case SkipDisplay => 6
      case WordWrap => 7
      case Ellipsize => 8
      case Alignment => 9
      case HideText => 10
      case ProgressBarAlignment => 11
      case MinIconSize => 12
      case MaxIconSize => 13
      case IconPlace => 15
      case OverridePauseLevel => 16
    )
    case Enum(e) => (
      match e
      case FullscreenMode => 4
      case Markup => 14
    )
    case Paint(c) => (
      match c
      case Foreground => 17
      case Background => 18
      case FrameColor => 20
    )
    case Label(t) => (
      match t
      case ActionName => 21
      case Category => 22
      case DefaultIcon => 23
      case StackTag => 24
      case FormatString => 25
    )
  }

  const FIELD_COUNT := 26

  lemma OrderIsInjective(f: Field, g: Field)
    ensures Order(f) == Order(g) ==> f == g
    ensures Order(f) < FIELD_COUNT
  {
  }

  class RuledNotification {
    const facts: Facts
    var props: Props
    var original: Option<Props>

    constructor (facts: Facts, props: Props)
      ensures this.facts == facts && State() == Ruled(props, None)
    {
      this.facts, this.props, original := facts, props, None;
    }

    ghost function State(): Ruled
      reads this
    {
      Ruled(props, original)
    }

    /** The first `k` fields are as after the rule, the others as before. */
    ghost predicate Partly(r: Props, n: Ruled, save: bool, k: nat)
      reads this
    {
      && (original.Some? <==> save || n.original.Some?)
      && (forall f: Field :: props(f) == if Order(f) < k then Applied(r, n.props)(f) else n.props(f))
      && (original.Some? ==> forall f: Field ::
            original.value(f) == if save && Order(f) < k then Saved(r, n.props, Base(n))(f) else Base(n)(f))
    }

    /** The RULE_APPLY macro. */
    method ApplyField(r: Props, f: Field, save: bool, ghost n: Ruled, ghost k: nat)
      requires Order(f) == k && Partly(r, n, save, k)
      modifies this
      ensures Partly(r, n, save, k + 1)
    {
      if !Unset(f, r(f)) {
        if save && Unset(f, original.value(f)) {
          var kept, value := original.value, props(f);
          var updated: Props := g => if g == f then value else kept(g);
          original := Some(updated);
        }
        var was := props;
        props := g => if g == f then r(f) else was(g);
      }
      forall g: Field ensures Order(g) == Order(f) ==> g == f { OrderIsInjective(g, f); }
    }

    /** Timeouts and urgency. */
    method ApplyTimeouts(r: Props, save: bool, ghost n: Ruled)
      requires Partly(r, n, save, 0)
      modifies this
      ensures Partly(r, n, save, 4)
    {
      ApplyField(r, Number(DbusTimeout), save, n, 0);
      ApplyField(r, Number(Transient), save, n, 1);
      ApplyField(r, Number(Timeout), save, n, 2);
      ApplyField(r, Number(Urgency), save, n, 3);
    }

    /** Where the notification may appear. */
    method ApplyVisibility(r: Props, save: bool, ghost n: Ruled)
      requires Partly(r, n, save, 4)
      modifies this
      ensures Partly(r, n, save, 7)
    {
      ApplyField(r, Enum(FullscreenMode), save, n, 4);
      ApplyField(r, Number(HistoryIgnore), save, n, 5);
      ApplyField(r, Number(SkipDisplay), save, n, 6);
    }

    /** How the text is laid out. */
    method ApplyTextLayout(r: Props, save: bool, ghost n: Ruled)
      requires Partly(r, n, save, 7)
      modifies this
      ensures Partly(r, n, save, 11)
    {
      ApplyField(r, Number(WordWrap), save, n, 7);
      ApplyField(r, Number(Ellipsize), save, n, 8);
      ApplyField(r, Number(Alignment), save, n, 9);
      ApplyField(r, Number(HideText), save, n, 10);
    }

    /** Progress bar, icon sizes and markup. */
    method ApplySizes(r: Props, save: bool, ghost n: Ruled)
      requires Partly(r, n, save, 11)
      modifies this
      ensures Partly(r, n, save, 15)
    {
      ApplyField(r, Number(ProgressBarAlignment), save, n, 11);
      ApplyField(r, Number(MinIconSize), save, n, 12);
      ApplyField(r, Number(MaxIconSize), save, n, 13);
      ApplyField(r, Enum(Markup), save, n, 14);
    }

    /** Icon position and pause level. */
    method ApplyPlaces(r: Props, save: bool, ghost n: Ruled)
      requires Partly(r, n, save, 15)
      modifies this
      ensures Partly(r, n, save, 17)
    {
      ApplyField(r, Number(IconPlace), save, n, 15);
      ApplyField(r, Number(OverridePauseLevel), save, n, 16);
    }

    /** Colors and highlight. */
    method ApplyColors(r: Props, save: bool, ghost n: Ruled)
      requires Partly(r, n, save, 17)
      modifies this
      ensures Partly(r, n, save, 21)
    {
      ApplyField(r, Paint(Foreground), save, n, 17);
      ApplyField(r, Paint(Background), save, n, 18);
      ApplyField(r, Highlight, save, n, 19);
      ApplyField(r, Paint(FrameColor), save, n, 20);
    }

    /** The strings. */
    method ApplyTexts(r: Props, save: bool, ghost n: Ruled)
      requires Partly(r, n, save, 21)
      modifies this
      ensures Partly(r, n, save, 26)
    {
      ApplyField(r, Label(ActionName), save, n, 21);
      ApplyField(r, Label(Category), save, n, 22);
      ApplyField(r, Label(DefaultIcon), save, n, 23);
      ApplyField(r, Label(StackTag), save, n, 24);
      ApplyField(r, Label(FormatString), save, n, 25);
    }

    /** `rule_apply` */
    method RuleApply(r: Props, save: bool)
      modifies this
      ensures Same(State(), Apply(r, old(State()), save))
    {
      ghost var n := State();
      // notification_keep_original
      if save && original.None? { original := Some(EMPTY_RULE); }
      ApplyTimeouts(r, save, n);
      ApplyVisibility(r, save, n);
      ApplyTextLayout(r, save, n);
      ApplySizes(r, save, n);
      ApplyPlaces(r, save, n);
      ApplyColors(r, save, n);
      ApplyTexts(r, save, n);
      forall f: Field ensures Order(f) < FIELD_COUNT { OrderIsInjective(f, f); }
    }

    /** `rule_apply_all` */
    method RuleApplyAll(engine: Engine, rules: seq<Rule>)
      modifies this
      ensures Same(State(), ApplyAll(engine, rules, facts, old(State())))
    {
      var i := 0;
      while i < |rules|
        invariant 0 <= i <= |rules|
        invariant Same(ApplyAll(engine, rules[i..], facts, State()), ApplyAll(engine, rules, facts, old(State())))
      {
        var r := rules[i];
        ghost var n := State();
        assert rules[i..][0] == r && rules[i..][1..] == rules[i + 1..];
        if Matches(engine, r, facts, props) {
          RuleApply(r.sets, true);
          ApplyAllSame(engine, rules[i + 1..], facts, State(), Apply(r.sets, n, true));
        }
        i := i + 1;
      }
    }

    /** One notification in `queues_reapply_all_rules`. */
    method ReapplyRules(engine: Engine, rules: seq<Rule>)
      modifies this
      ensures Same(State(), Reapply(engine, rules, facts, old(State())))
    {
      ghost var n := State();
      if original.Some? {
        RuleApply(original.value, false);
      }
      ApplyAllSame(engine, rules, facts, State(), Restored(n));
      RuleApplyAll(engine, rules);
    }
  }
}
