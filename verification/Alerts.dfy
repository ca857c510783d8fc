/**
 Which alerts a processed record raises (`_evaluate_alerts` in
 src/darkpulse/broker/processor.py): the rule loop and the watchlist loop, as functions of
 the configuration that was read.
 */
module Alerts {
  import opened Common
  import opened Queue

  const WATCHLIST_READ_LIMIT := 500

  /** The part of a TraffickingIntel record that alerting looks at; `text` is what watchlists search, case-folded. */
  datatype Payload = Payload(
    ingest: nat, score: real, products: set<string>, neighborhood: string, text: string)

  datatype Rule = Rule(
    name: string, enabled: bool, severityMin: real, products: set<string>, neighborhoods: set<string>)

  /** `active` stands for enabled and notify. */
  datatype Watchlist = Watchlist(id: string, active: bool, terms: set<string>)

  /** `<intel_id>:<suffix>`; rules use their name and watchlists "watch:<id>" as the suffix. */
  datatype AlertId = AlertId(intel: IntelId, suffix: string)

  function IntelIdOf(p: Payload): IntelId {
    DerivedFrom(p.ingest)
  }

  /** `_resume_saved` goes on from an intel row that an earlier claim of this record saved. */
  predicate Resumable(doc: Row, intel: map<IntelId, Payload>) {
    doc.phase == IntelSaved && doc.intelId.Some? && doc.intelId.value in intel
  }

  predicate RuleFires(r: Rule, p: Payload) {
    && r.enabled
    && p.score >= r.severityMin
    && (r.products != {} ==> r.products * p.products != {})
    && (r.neighborhoods != {} ==> p.neighborhood in r.neighborhoods)
  }

  function RuleAlert(r: Rule, p: Payload): AlertId {
    AlertId(IntelIdOf(p), r.name)
  }

  function RuleAlerts(rules: seq<Rule>, p: Payload): seq<AlertId> {
    if rules == [] then []
    else (if RuleFires(rules[0], p) then [RuleAlert(rules[0], p)] else []) + RuleAlerts(rules[1..], p)
  }

  predicate IsSpace(c: char) {
    c == ' ' || '\t' <= c <= '\r'
  }

  /** `str.strip()` */
  function Strip(s: string): string
    decreases |s|
  {
    if s == [] then []
    else if IsSpace(s[0]) then Strip(s[1..])
    else if IsSpace(s[|s| - 1]) then Strip(s[..|s| - 1])
    else s
  }

  /** `\w`, for ASCII. */
  predicate IsWord(c: char) {
    'a' <= c <= 'z' || 'A' <= c <= 'Z' || '0' <= c <= '9' || c == '_'
  }

  /** The needle stands at position k, with no word character on either side. */
  predicate StandsAt(needle: string, text: string, k: nat) {
    && k + |needle| <= |text| && text[k..k + |needle|] == needle
    && (k > 0 ==> !IsWord(text[k - 1]))
    && (k + |needle| < |text| ==> !IsWord(text[k + |needle|]))
  }

  /** `_term_in_text` */
  predicate TermInText(term: string, text: string) {
    var needle := Strip(Lower(term));
    |needle| >= 2 && exists k :: 0 <= k <= |text| && StandsAt(needle, text, k)
  }

  /** The text is a, the needle and b, and no word character touches the needle. */
  predicate CutOff(a: string, needle: string, b: string, text: string) {
    && text == a + needle + b
    && (a != [] ==> !IsWord(a[|a| - 1])) && (b != [] ==> !IsWord(b[0]))
  }

  lemma StandsCutOff(needle: string, text: string)
    ensures (exists k :: 0 <= k <= |text| && StandsAt(needle, text, k)) <==> (exists a, b :: CutOff(a, needle, b, text))
  {
    hide IsWord;
    if k :| 0 <= k <= |text| && StandsAt(needle, text, k) {
      assert CutOff(text[..k], needle, text[k + |needle|..], text);
    }
    if a, b :| CutOff(a, needle, b, text) {
      assert text[|a|..|a| + |needle|] == needle;
      assert StandsAt(needle, text, |a|);
    }
  }

  /** A term of two or more characters is found exactly where it is cut off from its surroundings. */
  lemma TermInTextExact(term: string, text: string)
    ensures var needle := Strip(Lower(term));
            TermInText(term, text) <==> |needle| >= 2 && exists a, b :: CutOff(a, needle, b, text)
  {
    hide Strip, Lower, StandsAt, CutOff;
    StandsCutOff(Strip(Lower(term)), text);
  }

  /** Some term of the list is found in the text. */
  predicate ListFires(w: Watchlist, p: Payload) {
    exists t :: t in w.terms && TermInText(t, p.text)
  }

  function ListAlert(w: Watchlist, p: Payload): AlertId {
    AlertId(IntelIdOf(p), "watch:" + w.id)
  }

  function ListAlerts(lists: seq<Watchlist>, p: Payload): seq<AlertId> {
    if lists == [] then []
    else (if ListFires(lists[0], p) then [ListAlert(lists[0], p)] else []) + ListAlerts(lists[1..], p)
  }

  function ActiveLists(lists: seq<Watchlist>): seq<Watchlist> {
    if lists == [] then []
    else (if lists[0].active then [lists[0]] else []) + ActiveLists(lists[1..])
  }

  /** `find({"enabled": True, "notify": True}).to_list(length=500)` */
  function ListsRead(lists: seq<Watchlist>): seq<Watchlist> {
    var active := ActiveLists(lists);
    if |active| <= WATCHLIST_READ_LIMIT then active else active[..WATCHLIST_READ_LIMIT]
  }

  lemma {:induction false} RuleAlertsExact(rules: seq<Rule>, p: Payload, a: AlertId)
    ensures a in RuleAlerts(rules, p) <==> exists r :: r in rules && RuleFires(r, p) && a == RuleAlert(r, p)
  {
    if rules != [] {
      RuleAlertsExact(rules[1..], p, a);
      assert forall r :: r in rules <==> r == rules[0] || r in rules[1..];
    }
  }

  lemma {:induction false} ListAlertsExact(lists: seq<Watchlist>, p: Payload, a: AlertId)
    ensures a in ListAlerts(lists, p) <==> exists w :: w in lists && ListFires(w, p) && a == ListAlert(w, p)
  {
    if lists != [] {
      ListAlertsExact(lists[1..], p, a);
      assert forall w :: w in lists <==> w == lists[0] || w in lists[1..];
    }
  }

  lemma RuleAlertsFirst(rules: seq<Rule>, p: Payload)
    requires rules != []
    ensures RuleAlerts(rules, p)
         == (if RuleFires(rules[0], p) then [RuleAlert(rules[0], p)] else []) + RuleAlerts(rules[1..], p)
  {
  }

  lemma {:induction false} RuleAlertsAppend(a: seq<Rule>, b: seq<Rule>, p: Payload)
    ensures RuleAlerts(a + b, p) == RuleAlerts(a, p) + RuleAlerts(b, p)
  {
    if a == [] {
      assert a + b == b;
    } else {
      var whole := a + b;
      assert whole[0] == a[0] && whole[1..] == a[1..] + b;
      RuleAlertsAppend(a[1..], b, p);
      RuleAlertsFirst(whole, p);
      RuleAlertsFirst(a, p);
      hide RuleAlerts, RuleFires;
      var head := if RuleFires(a[0], p) then [RuleAlert(a[0], p)] else [];
      assert RuleAlerts(whole, p) == head + (RuleAlerts(a[1..], p) + RuleAlerts(b, p));
    }
  }

  lemma ListAlertsFirst(lists: seq<Watchlist>, p: Payload)
    requires lists != []
    ensures ListAlerts(lists, p)
         == (if ListFires(lists[0], p) then [ListAlert(lists[0], p)] else []) + ListAlerts(lists[1..], p)
  {
  }

  lemma {:induction false} ListAlertsAppend(a: seq<Watchlist>, b: seq<Watchlist>, p: Payload)
    ensures ListAlerts(a + b, p) == ListAlerts(a, p) + ListAlerts(b, p)
  {
    if a == [] {
      assert a + b == b;
    } else {
      var whole := a + b;
      assert whole[0] == a[0] && whole[1..] == a[1..] + b;
      ListAlertsAppend(a[1..], b, p);
      ListAlertsFirst(whole, p);
      ListAlertsFirst(a, p);
      hide ListAlerts, ListFires;
      var head := if ListFires(a[0], p) then [ListAlert(a[0], p)] else [];
      assert ListAlerts(whole, p) == head + (ListAlerts(a[1..], p) + ListAlerts(b, p));
    }
  }
}
