/** What a list of rules does to each field of a notification, filter by filter
    (rule_matches_notification and rule_apply_all in src/rules.c). */
module RuleFilters {
  import opened Notifications
  import opened Rules

  /** A text filter: the empty one lets everything pass, and no other lets a missing text pass. */
  predicate Passes(engine: Engine, value: Option<string>, pattern: string) {
    pattern == "" || (value.Some? && engine(value.value, pattern))
  }

  /** The rule is in force for the notification as it is now. */
  predicate InForce(engine: Engine, r: Rule, facts: Facts, n: Props) {
    && r.enabled
    && (r.msgUrgency != -1 ==> n(Field.Number(NumberField.Urgency)) == Num(r.msgUrgency))
    && (r.matchDbusTimeout >= 0 ==> n(Field.Number(DbusTimeout)) == Num(r.matchDbusTimeout))
    && (r.matchTransient != -1 ==> n(Field.Number(Transient)) == Num(r.matchTransient))
    && Passes(engine, facts.appname, r.appname)
    && Passes(engine, facts.desktopEntry, r.desktopEntry)
    && Passes(engine, facts.summary, r.summary)
    && Passes(engine, facts.body, r.body)
    && Passes(engine, facts.icon, r.icon)
    && (r.category == "" || PassesText(engine, n(Label(Category)), r.category))
    && (r.stackTag == "" || PassesText(engine, n(Label(StackTag)), r.stackTag))
  }

  predicate PassesText(engine: Engine, v: Value, pattern: string) {
    v.Text? && v.t.Some? && engine(v.t.value, pattern)
  }

  /** A value the rule really gives: a number other than -1, a mode other than 0, a color with all
      four parts between 0 and 1, a gradient, a text. */
  predicate Gives(f: Field, v: Value) {
    match f
    case Number(_) => v != Num(-1)
    case Enum(_) => v != Num(0)
    case Paint(_) => v.Color? && 0.0 <= v.r <= 1.0 && 0.0 <= v.g <= 1.0 && 0.0 <= v.b <= 1.0 && 0.0 <= v.a <= 1.0
    case Highlight => v != Gradient(None)
    case Label(_) => v != Text(None)
  }

  lemma InForceIsMatch(engine: Engine, r: Rule, facts: Facts, n: Props)
    ensures InForce(engine, r, facts, n) <==> Matches(engine, r, facts, n)
  {
  }

  lemma GivenIsSet(f: Field, v: Value)
    ensures Gives(f, v) <==> !Unset(f, v)
  {
  }

  lemma {:induction false} ApplyAllSnoc(engine: Engine, rules: seq<Rule>, r: Rule, facts: Facts, n: Ruled)
    ensures ApplyAll(engine, rules + [r], facts, n)
            == ApplyOne(engine, r, facts, ApplyAll(engine, rules, facts, n))
  {
    if rules == [] {
      assert rules + [r] == [r] && [r][1..] == [];
    } else {
      assert (rules + [r])[0] == rules[0] && (rules + [r])[1..] == rules[1..] + [r];
      ApplyAllSnoc(engine, rules[1..], r, facts, ApplyOne(engine, rules[0], facts, n));
    }
  }

  /** The last word: a field is what the last rule gives it, if that rule is in force for what the
      rules before it made of the notification and gives the field a value; else what those made of
      it. The first value that is overwritten is kept aside. */
  lemma LastRuleDecides(engine: Engine, rules: seq<Rule>, r: Rule, facts: Facts, n: Ruled, f: Field)
    ensures var before, after := ApplyAll(engine, rules, facts, n), ApplyAll(engine, rules + [r], facts, n);
            after.props(f) == if InForce(engine, r, facts, before.props) && Gives(f, r.sets(f)) then r.sets(f)
                              else before.props(f)
    ensures var before, after := ApplyAll(engine, rules, facts, n), ApplyAll(engine, rules + [r], facts, n);
            InForce(engine, r, facts, before.props) && Gives(f, r.sets(f)) ==>
              && after.original.Some?
              && after.original.value(f) == if before.original.Some? && Gives(f, before.original.value(f))
                                            then before.original.value(f) else before.props(f)
  {
    var before := ApplyAll(engine, rules, facts, n);
    ApplyAllSnoc(engine, rules, r, facts, n);
    InForceIsMatch(engine, r, facts, before.props);
    GivenIsSet(f, r.sets(f));
    if before.original.Some? { GivenIsSet(f, before.original.value(f)); }
    assert Unset(f, EMPTY_RULE(f));
  }

  /** A reload without rules gives back what was kept aside, and leaves the rest alone. */
  lemma ReloadGivesBack(engine: Engine, facts: Facts, n: Ruled, f: Field)
    ensures Reapply(engine, [], facts, n).props(f)
            == if n.original.Some? && Gives(f, n.original.value(f)) then n.original.value(f) else n.props(f)
    ensures Reapply(engine, [], facts, n).original == n.original
  {
    if n.original.Some? { GivenIsSet(f, n.original.value(f)); }
  }
}
