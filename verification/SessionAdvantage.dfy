/** Advantages for agent loops with several outputs per session (verl/trainer/main_ppo_sync.py). */
module SessionAdvantage {
  import opened Outcomes
  import opened ReplayBuffers
  import opened Sequences

  // ---------------------------------------------------------------- decimal numbers

  function Digit(d: nat): (c: char)
    requires d < 10
    ensures c as int == '0' as int + d
  {
    ['0', '1', '2', '3', '4', '5', '6', '7', '8', '9'][d]
  }

  function Dec(n: nat): string {
    if n < 10 then [Digit(n)] else Dec(n / 10) + [Digit(n % 10)]
  }

  function Value(c: char): nat {
    (c as int - '0' as int) % 10
  }

  predicate Digits(s: string) {
    s != [] && forall i :: 0 <= i < |s| ==> '0' <= s[i] <= '9'
  }

  /** int(s) for a string of digits. */
  function Int(s: string): nat
    requires s != []
  {
    if |s| == 1 then Value(s[0]) else 10 * Int(s[..|s| - 1]) + Value(s[|s| - 1])
  }

  lemma {:induction false} DecDigits(n: nat)
    ensures Digits(Dec(n))
  {
    if n >= 10 { DecDigits(n / 10); }
  }

  lemma DigitValue(d: nat)
    requires d < 10
    ensures Value(Digit(d)) == d
  {
  }

  lemma {:induction false} IntDec(n: nat)
    ensures Int(Dec(n)) == n
  {
    DigitValue(n % 10);
    if n >= 10 {
      DecDigits(n / 10);
      IntDec(n / 10);
      IntSnoc(Dec(n / 10), Digit(n % 10));
    }
  }

  lemma IntSnoc(s: string, c: char)
    requires s != []
    ensures Int(s + [c]) == 10 * Int(s) + Value(c)
  {
    assert (s + [c])[..|s|] == s;
  }

  lemma DecInjective(m: nat, n: nat)
    requires Dec(m) == Dec(n)
    ensures m == n
  {
    IntDec(m);
    IntDec(n);
  }

  // ---------------------------------------------------------------- splitting from the right

  /** The position of the last c, or -1. */
  function Last(s: string, c: char): int
    ensures -1 <= Last(s, c) < |s|
  {
    if s == [] then -1 else if s[|s| - 1] == c then |s| - 1 else Last(s[..|s| - 1], c)
  }

  /** s.rsplit(c, n) for a single character. */
  function RSplit(s: string, c: char, n: nat): seq<string> {
    if n == 0 || Last(s, c) < 0 then [s]
    else RSplit(s[..Last(s, c)], c, n - 1) + [s[Last(s, c) + 1..]]
  }

  lemma {:induction false} LastOf(a: string, b: string, c: char)
    requires c !in b
    ensures Last(a + [c] + b, c) == |a|
  {
    var s := a + [c] + b;
    if b != [] {
      var n := |b| - 1;
      assert s[..|s| - 1] == a + [c] + b[..n];
      assert s[|s| - 1] == b[n] && b[n] in b;
      LastOf(a, b[..n], c);
    }
  }

  lemma SplitLast(a: string, b: string, c: char, n: nat)
    requires c !in b && n > 0
    ensures RSplit(a + [c] + b, c, n) == RSplit(a, c, n - 1) + [b]
  {
    LastOf(a, b, c);
    var s := a + [c] + b;
    assert s[..|a|] == a && s[|a| + 1..] == b;
  }

  lemma NoSeparator(n: nat)
    ensures '_' !in Dec(n)
  {
    DecDigits(n);
  }

  // ---------------------------------------------------------------- keys

  function SessionName(uid: string, session: nat): string {
    uid + "_" + Dec(session)
  }

  /** The key that something is stored under. */
  function Name(key: Key): string {
    if key.Prompt? then key.uid else SessionName(key.uid, key.session) + "_" + Dec(key.index)
  }

  function Fields(name: string): seq<string> {
    RSplit(name, '_', 2)
  }

  /** Splitting from the right gets the three parts back, whatever the uid. */
  lemma FieldsOfName(uid: string, session: nat, index: nat)
    ensures Fields(Name(Output(uid, session, index))) == [uid, Dec(session), Dec(index)]
  {
    NoSeparator(session);
    NoSeparator(index);
    assert Name(Output(uid, session, index)) == SessionName(uid, session) + ['_'] + Dec(index);
    SplitLast(SessionName(uid, session), Dec(index), '_', 2);
    assert SessionName(uid, session) == uid + ['_'] + Dec(session);
    SplitLast(uid, Dec(session), '_', 1);
  }

  /** The fields are the parts around the last two separators; there are three of them exactly if there are two separators. */
  lemma FieldsAre(name: string, a: string, b: string, c: string)
    ensures Fields(name) == [a, b, c] <==> name == a + ['_'] + b + ['_'] + c && '_' !in b && '_' !in c
    ensures name == a + ['_'] + b + ['_'] + c ==> |Fields(name)| == 3
  {
    if name == a + ['_'] + b + ['_'] + c {
      TwoSeparators(a, b, c);
      if '_' !in b && '_' !in c {
        SplitLast(a + ['_'] + b, c, '_', 2);
        SplitLast(a, b, '_', 1);
      }
    }
    if Fields(name) == [a, b, c] { FieldsJoin(name); }
  }

  lemma FieldsJoin(name: string)
    requires |Fields(name)| == 3
    ensures var f := Fields(name);
            name == f[0] + ['_'] + f[1] + ['_'] + f[2] && '_' !in f[1] && '_' !in f[2]
  {
    TwoLevels(name);
    LastAt(name, '_');
    LastAt(Front(name), '_');
  }

  lemma RSplitOnce(s: string, c: char)
    ensures RSplit(s, c, 1) == if Last(s, c) < 0 then [s] else [s[..Last(s, c)], s[Last(s, c) + 1..]]
  {
    if Last(s, c) >= 0 { assert RSplit(s[..Last(s, c)], c, 0) == [s[..Last(s, c)]]; }
  }

  /** What stands in front of the last separator. */
  function Front(name: string): string {
    if Last(name, '_') < 0 then "" else name[..Last(name, '_')]
  }

  lemma TwoLevels(name: string)
    ensures |Fields(name)| == 3 <==> Last(name, '_') >= 0 && Last(Front(name), '_') >= 0
    ensures |Fields(name)| == 3 ==>
      var n, m := Last(name, '_'), Last(Front(name), '_');
      Fields(name)[0] == Front(name)[..m] && Fields(name)[1] == Front(name)[m + 1..] && Fields(name)[2] == name[n + 1..]
  {
    RSplitOnce(Front(name), '_');
  }

  lemma {:induction false} LastAt(s: string, c: char)
    ensures Last(s, c) < 0 <==> c !in s
    ensures Last(s, c) >= 0 ==> s == s[..Last(s, c)] + [c] + s[Last(s, c) + 1..] && c !in s[Last(s, c) + 1..]
  {
    if s != [] {
      var n := |s| - 1;
      assert s == s[..n] + [s[n]];
      if s[n] != c { LastAt(s[..n], c); }
    }
  }

  lemma TwoSeparators(a: string, b: string, c: string)
    ensures |Fields(a + ['_'] + b + ['_'] + c)| == 3
  {
    var name := a + ['_'] + b + ['_'] + c;
    TwoLevels(name);
    LastIsLast(name, '_', |a| + 1 + |b|);
    LastIsLast(Front(name), '_', |a|);
  }

  lemma {:induction false} LastIsLast(s: string, c: char, i: nat)
    requires i < |s| && s[i] == c
    ensures Last(s, c) >= i
  {
    if i < |s| - 1 { LastIsLast(s[..|s| - 1], c, i); }
  }

  /** Different outputs have different keys. */
  lemma NamesDiffer(a: Key, b: Key)
    requires a.Output? && b.Output? && Name(a) == Name(b)
    ensures a == b
  {
    FieldsOfName(a.uid, a.session, a.index);
    FieldsOfName(b.uid, b.session, b.index);
    var fields := Fields(Name(a));
    assert fields[0] == a.uid == b.uid && fields[1] == Dec(a.session) == Dec(b.session) && fields[2] == Dec(a.index) == Dec(b.index);
    DecInjective(a.session, b.session);
    DecInjective(a.index, b.index);
  }

  predicate WellFormed(name: string) {
    |Fields(name)| == 3 && Digits(Fields(name)[2])
  }

  function SessionOf(name: string): string
    requires |Fields(name)| == 3
  {
    Fields(name)[0] + "_" + Fields(name)[1]
  }

  function IndexOf(name: string): nat
    requires WellFormed(name)
  {
    Int(Fields(name)[2])
  }

  /** What the loop reads off a key is the session it belongs to, and its index in the session. */
  lemma NameParts(a: Key, b: Key)
    requires a.Output? && b.Output?
    ensures WellFormed(Name(a)) && WellFormed(Name(b)) && IndexOf(Name(a)) == a.index
    ensures SessionOf(Name(a)) == SessionOf(Name(b)) <==> a.uid == b.uid && a.session == b.session
  {
    FieldsOfName(a.uid, a.session, a.index);
    FieldsOfName(b.uid, b.session, b.index);
    DecDigits(a.index);
    DecDigits(b.index);
    IntDec(a.index);
    if SessionOf(Name(a)) == SessionOf(Name(b)) {
      assert Name(Output(a.uid, a.session, 0)) == Name(Output(b.uid, b.session, 0));
      NamesDiffer(Output(a.uid, a.session, 0), Output(b.uid, b.session, 0));
    }
  }

  // ---------------------------------------------------------------- final rows

  /** What is read off one key. */
  datatype Row = Row(session: string, index: nat)

  function RowOf(name: string): Row
    requires WellFormed(name)
  {
    Row(SessionOf(name), IndexOf(name))
  }

  ghost predicate AllWellFormed(names: seq<string>) {
    forall i :: 0 <= i < |names| ==> WellFormed(names[i])
  }

  /** The row with the largest index of its session; of several ones the first. */
  ghost predicate IsFinal(rows: seq<Row>, session: string, row: nat) {
    row < |rows| && rows[row].session == session &&
    forall i :: 0 <= i < |rows| && rows[i].session == session ==>
      rows[i].index < rows[row].index || (rows[i].index == rows[row].index && row <= i)
  }

  /** `order` is the order in which the dictionary's keys were inserted. */
  ghost predicate FinalSessions(rows: seq<Row>, finals: map<string, (nat, nat)>, order: seq<string>) {
    Distinct(order) && (forall session :: session in finals <==> session in order) &&
    (forall i :: 0 <= i < |rows| ==> rows[i].session in finals) &&
    forall session :: session in finals ==>
      IsFinal(rows, session, finals[session].1) && finals[session].0 == rows[finals[session].1].index
  }

  /** Sessions in the order in which they were first met. */
  ghost predicate FirstMet(rows: seq<Row>, order: seq<string>) {
    forall a, b, i :: 0 <= a < b < |order| && 0 <= i < |rows| && rows[i].session == order[b] ==> MetBefore(rows, order[a], i)
  }

  ghost predicate MetBefore(rows: seq<Row>, session: string, i: nat) {
    exists h :: 0 <= h < i && h < |rows| && rows[h].session == session
  }

  lemma FirstMetNext(rows: seq<Row>, r: Row, finals: map<string, (nat, nat)>, order: seq<string>)
    requires FinalSessions(rows, finals, order) && FirstMet(rows, order)
    ensures FirstMet(rows + [r], NextOrder(finals, order, r))
  {
    var rows', order' := rows + [r], NextOrder(finals, order, r);
    forall a, b, i | 0 <= a < b < |order'| && 0 <= i < |rows'| && rows'[i].session == order'[b] ensures MetBefore(rows', order'[a], i) {
      assert order'[a] == order[a] && order[a] in finals;
      assert IsFinal(rows, order[a], finals[order[a]].1);
      if i < |rows| {
        assert rows[i].session in order;
        assert b < |order|;
        assert MetBefore(rows, order[a], i);
        var h :| 0 <= h < i && h < |rows| && rows[h].session == order[a];
        assert rows'[h].session == order'[a];
      } else {
        assert rows'[finals[order[a]].1].session == order'[a];
      }
    }
  }

  /** A row replaces the final row of its session if its index is larger. */
  function NextFinals(finals: map<string, (nat, nat)>, r: Row, row: nat): map<string, (nat, nat)> {
    if r.session !in finals || finals[r.session].0 < r.index then finals[r.session := (r.index, row)] else finals
  }

  function NextOrder(finals: map<string, (nat, nat)>, order: seq<string>, r: Row): seq<string> {
    if r.session in finals then order else order + [r.session]
  }

  lemma FinalNext(rows: seq<Row>, r: Row, finals: map<string, (nat, nat)>, order: seq<string>)
    requires FinalSessions(rows, finals, order)
    ensures FinalSessions(rows + [r], NextFinals(finals, r, |rows|), NextOrder(finals, order, r))
  {
    var finals' := NextFinals(finals, r, |rows|);
    forall session | session in finals'
      ensures IsFinal(rows + [r], session, finals'[session].1) && finals'[session].0 == (rows + [r])[finals'[session].1].index
    {
      if session in finals { assert IsFinal(rows, session, finals[session].1); }
    }
  }

  /** What has been read off the first keys. */
  ghost predicate RowsRead(names: seq<string>, rows: seq<Row>, rowSessions: seq<string>) {
    |rowSessions| == |rows| <= |names| &&
    forall k :: 0 <= k < |rows| ==> WellFormed(names[k]) && rows[k] == RowOf(names[k]) && rowSessions[k] == rows[k].session
  }

  lemma RowsReadNext(names: seq<string>, rows: seq<Row>, rowSessions: seq<string>, r: Row)
    requires RowsRead(names, rows, rowSessions) && |rows| < |names| && WellFormed(names[|rows|]) && r == RowOf(names[|rows|])
    ensures RowsRead(names, rows + [r], rowSessions + [r.session])
  {
  }

  /** The first malformed name decides which error is raised: it has too few fields, or its index is no number. */
  ghost predicate FirstErrorAt(names: seq<string>, error: Error, i: nat) {
    i < |names| && AllWellFormed(names[..i]) && !WellFormed(names[i]) &&
    error == if |Fields(names[i])| != 3 then AssertionError else ValueError
  }

  ghost predicate FirstError(names: seq<string>, error: Error) {
    exists i: nat :: FirstErrorAt(names, error, i)
  }

  /** Reads session and index off a key. */
  method ReadRow(name: string) returns (error: Option<Error>, r: Row)
    ensures error.None? <==> WellFormed(name)
    ensures error.None? ==> r == RowOf(name)
    ensures error == Some(AssertionError) <==> |Fields(name)| != 3
    ensures error == Some(ValueError) <==>
      |Fields(name)| == 3 && (Fields(name)[2] == [] || exists i :: 0 <= i < |Fields(name)[2]| && !('0' <= Fields(name)[2][i] <= '9'))
    ensures error.Some? ==> error.value == AssertionError || error.value == ValueError
  {
    r := Row("", 0);
    var fields := Fields(name);
    if |fields| != 3 { return Some(AssertionError), r; }
    if !Digits(fields[2]) { return Some(ValueError), r; }
    return None, Row(fields[0] + "_" + fields[1], Int(fields[2]));
  }

  method FindFinalSessions(names: seq<string>)
    returns (error: Option<Error>, finals: map<string, (nat, nat)>, order: seq<string>, rowSessions: seq<string>, ghost rows: seq<Row>)
    ensures error.None? <==> AllWellFormed(names)
    ensures error.None? ==> FinalSessions(rows, finals, order) && RowsRead(names, rows, rowSessions) && |rows| == |names|
    ensures error.None? ==> FirstMet(rows, order)
    ensures error.Some? ==> FirstError(names, error.value)
  {
    error, finals, order, rowSessions, rows := None, map[], [], [], [];
    for i := 0 to |names|
      invariant error.None? && RowsRead(names, rows, rowSessions) && |rows| == i
      invariant FinalSessions(rows, finals, order) && FirstMet(rows, order)
    {
      var r;
      error, r := ReadRow(names[i]);
      if error.Some? {
        assert FirstErrorAt(names, error.value, i);
        return;
      }
      FinalNext(rows, r, finals, order);
      FirstMetNext(rows, r, finals, order);
      RowsReadNext(names, rows, rowSessions, r);
      rows, rowSessions := rows + [r], rowSessions + [r.session];
      finals, order := NextFinals(finals, r, i), NextOrder(finals, order, r);
    }
  }

  /** With distinct keys the final row of a session is one key, in whatever order the rows come. */
  lemma FinalWhateverOrder(a: seq<Key>, b: seq<Key>, uid: string, session: nat, r: nat, t: nat)
    requires (forall i :: 0 <= i < |a| ==> a[i].Output?) && (forall i :: 0 <= i < |b| ==> b[i].Output?)
    requires forall key :: key in a <==> key in b
    requires IsFinal(RowsOf(a), SessionName(uid, session), r) && IsFinal(RowsOf(b), SessionName(uid, session), t)
    ensures a[r] == b[t] && a[r].uid == uid && a[r].session == session
    ensures forall key :: key in a && key.uid == uid && key.session == session ==> key.index <= a[r].index
  {
    var own := Output(uid, session, 0);
    RowNamed(a, r, own);
    RowNamed(b, t, own);
    FinalIsMost(a, own, r);
    FinalIsMost(b, own, t);
    assert a[r] in b && b[t] in a;
  }

  function RowsOf(keys: seq<Key>): seq<Row>
    requires forall i :: 0 <= i < |keys| ==> keys[i].Output?
  {
    seq(|keys|, i requires 0 <= i < |keys| => NameParts(keys[i], keys[i]); RowOf(Name(keys[i])))
  }

  /** The rows of a session are those with its uid and number. */
  lemma RowNamed(keys: seq<Key>, i: nat, own: Key)
    requires (forall i :: 0 <= i < |keys| ==> keys[i].Output?) && i < |keys| && own.Output?
    ensures RowsOf(keys)[i].index == keys[i].index
    ensures RowsOf(keys)[i].session == SessionName(own.uid, own.session) <==> keys[i].uid == own.uid && keys[i].session == own.session
  {
    NameParts(keys[i], own);
    FieldsOfName(own.uid, own.session, own.index);
  }

  lemma FinalIsMost(keys: seq<Key>, own: Key, r: nat)
    requires (forall i :: 0 <= i < |keys| ==> keys[i].Output?) && own.Output?
    requires IsFinal(RowsOf(keys), SessionName(own.uid, own.session), r)
    ensures forall key :: key in keys && key.uid == own.uid && key.session == own.session ==> key.index <= keys[r].index
  {
    forall i | 0 <= i < |keys| && keys[i].uid == own.uid && keys[i].session == own.session
      ensures keys[i].index <= keys[r].index
    {
      RowNamed(keys, i, own);
      RowNamed(keys, r, own);
    }
  }

  // ---------------------------------------------------------------- scattering

  /** argmax of a row: the first position of its largest value. On a mask, the first valid token, or 0. */
  function FirstMax(mask: seq<int>): (k: nat)
    requires mask != []
    ensures k < |mask| && forall i :: 0 <= i < |mask| ==> mask[i] <= mask[k] && (i < k ==> mask[i] < mask[k])
  {
    if |mask| == 1 then 0
    else
      var k := FirstMax(mask[..|mask| - 1]);
      if mask[k] < mask[|mask| - 1] then |mask| - 1 else k
  }

  /** A score times a mask. */
  function Scaled(mask: seq<int>, score: real): seq<real> {
    seq(|mask|, t requires 0 <= t < |mask| => score * mask[t] as real)
  }

  ghost predicate Rectangular(masks: seq<seq<int>>, width: nat) {
    forall i :: 0 <= i < |masks| ==> |masks[i]| == width
  }

  /** The advantage estimator gives one row of advantages for each row selected. */
  ghost predicate Estimates(estimate: seq<nat> -> seq<seq<real>>, n: nat, width: nat) {
    forall rows :: (forall row :: row in rows ==> row < n) ==>
      |estimate(rows)| == |rows| && forall j :: 0 <= j < |rows| ==> |estimate(rows)[j]| == width
  }

  /** The final rows selected: one for each session. */
  ghost predicate Selected(rows: seq<Row>, finals: seq<nat>) {
    (forall j :: 0 <= j < |finals| ==> finals[j] < |rows| && IsFinal(rows, rows[finals[j]].session, finals[j])) &&
    (forall i, j :: 0 <= i < j < |finals| ==> rows[finals[i]].session != rows[finals[j]].session) &&
    forall i :: 0 <= i < |rows| ==> Represented(rows, finals, rows[i].session)
  }

  ghost predicate Represented(rows: seq<Row>, finals: seq<nat>, session: string) {
    exists j :: 0 <= j < |finals| && finals[j] < |rows| && rows[finals[j]].session == session
  }

  /** One row of advantages for each of the final rows, as wide as the masks. */
  ghost predicate Fitting(masks: seq<seq<int>>, finals: seq<nat>, advantages: seq<seq<real>>, width: nat) {
    Rectangular(masks, width) && width > 0 && |advantages| == |finals| &&
    forall j :: 0 <= j < |finals| ==> finals[j] < |masks| && |advantages[j]| == width
  }

  /** The first position at which the mask is largest. */
  ghost predicate IsFirstLargest(mask: seq<int>, k: nat) {
    k < |mask| && forall u :: 0 <= u < |mask| ==> mask[u] <= mask[k] && (u < k ==> mask[u] < mask[k])
  }

  /** Every row is its own mask, position by position, times the advantage that the final row of its session has at the
      first position at which that row's mask is largest. */
  ghost predicate Scattered(rows: seq<Row>, masks: seq<seq<int>>, finals: seq<nat>, advantages: seq<seq<real>>, width: nat, out: seq<seq<real>>)
    requires |masks| == |rows| && Selected(rows, finals) && Fitting(masks, finals, advantages, width)
  {
    |out| == |rows| && forall i :: 0 <= i < |rows| ==> ScatteredRow(rows, masks, finals, advantages, width, out[i], i)
  }

  ghost predicate ScatteredRow(rows: seq<Row>, masks: seq<seq<int>>, finals: seq<nat>, advantages: seq<seq<real>>, width: nat,
                               scores: seq<real>, i: nat)
    requires |masks| == |rows| && i < |rows| && Selected(rows, finals) && Fitting(masks, finals, advantages, width)
  {
    |scores| == width &&
    forall j, k: nat, t ::
      (0 <= j < |finals| && rows[finals[j]].session == rows[i].session && IsFirstLargest(masks[finals[j]], k) && 0 <= t < width) ==>
        scores[t] == masks[i][t] as real * advantages[j][k]
  }

  function Picked(finalSessions: map<string, (nat, nat)>, order: seq<string>): seq<nat>
    requires forall session :: session in order ==> session in finalSessions
  {
    seq(|order|, j requires 0 <= j < |order| => finalSessions[order[j]].1)
  }

  lemma PickedSelected(rows: seq<Row>, finalSessions: map<string, (nat, nat)>, order: seq<string>)
    requires FinalSessions(rows, finalSessions, order)
    ensures Selected(rows, Picked(finalSessions, order))
    ensures forall j :: 0 <= j < |order| ==> rows[Picked(finalSessions, order)[j]].session == order[j]
  {
    var finals := Picked(finalSessions, order);
    forall j | 0 <= j < |order| ensures finals[j] < |rows| && rows[finals[j]].session == order[j] && IsFinal(rows, order[j], finals[j]) {
      assert order[j] in finalSessions;
    }
    forall i | 0 <= i < |rows| ensures Represented(rows, finals, rows[i].session) {
      var j :| 0 <= j < |order| && order[j] == rows[i].session;
      assert rows[finals[j]].session == rows[i].session;
    }
  }

  /** Selects the final rows in the order in which their sessions were met, and numbers the sessions in it. */
  method SelectFinals(finalSessions: map<string, (nat, nat)>, order: seq<string>)
    returns (finals: seq<nat>, local: map<string, nat>)
    requires Distinct(order) && forall session :: session in order ==> session in finalSessions
    ensures finals == Picked(finalSessions, order)
    ensures forall j :: 0 <= j < |order| ==> order[j] in local && local[order[j]] == j
  {
    finals, local := [], map[];
    for j := 0 to |order|
      invariant finals == Picked(finalSessions, order[..j])
      invariant forall k :: 0 <= k < j ==> order[k] in local && local[order[k]] == k
    {
      finals := finals + [finalSessions[order[j]].1];
      local := local[order[j] := |finals| - 1];
    }
    assert order[..|order|] == order;
  }

  /** `local` leads from the session of every row to the number of its final row. */
  ghost predicate Located(rows: seq<Row>, finals: seq<nat>, local: map<string, nat>) {
    forall i :: 0 <= i < |rows| ==>
      var session := rows[i].session;
      session in local && local[session] < |finals| && finals[local[session]] < |rows| && rows[finals[local[session]]].session == session
  }

  lemma OrderLocates(rows: seq<Row>, finalSessions: map<string, (nat, nat)>, order: seq<string>, local: map<string, nat>)
    requires FinalSessions(rows, finalSessions, order)
    requires forall j :: 0 <= j < |order| ==> order[j] in local && local[order[j]] == j
    ensures Located(rows, Picked(finalSessions, order), local)
  {
    PickedSelected(rows, finalSessions, order);
    forall i | 0 <= i < |rows| ensures rows[i].session in order { assert rows[i].session in finalSessions; }
  }

  method ScatterScores(masks: seq<seq<int>>, rowSessions: seq<string>, local: map<string, nat>, finals: seq<nat>,
                       advantages: seq<seq<real>>, ghost width: nat, ghost rows: seq<Row>)
    returns (out: seq<seq<real>>)
    requires |masks| == |rowSessions| == |rows| && Selected(rows, finals) && Located(rows, finals, local)
    requires Fitting(masks, finals, advantages, width)
    requires forall i :: 0 <= i < |rows| ==> rowSessions[i] == rows[i].session
    ensures Scattered(rows, masks, finals, advantages, width, out)
  {
    out := [];
    for i := 0 to |masks|
      invariant |out| == i
      invariant forall h :: 0 <= h < i ==> ScatteredRow(rows, masks, finals, advantages, width, out[h], h)
    {
      var at := local[rowSessions[i]];
      var score := advantages[at][FirstMax(masks[finals[at]])];
      out := out + [Scaled(masks[i], score)];
      RowScattered(rows, masks, finals, advantages, width, i, at);
    }
  }

  lemma RowScattered(rows: seq<Row>, masks: seq<seq<int>>, finals: seq<nat>, advantages: seq<seq<real>>, width: nat, i: nat, at: nat)
    requires |masks| == |rows| && i < |rows| && Selected(rows, finals) && Fitting(masks, finals, advantages, width)
    requires at < |finals| && rows[finals[at]].session == rows[i].session
    ensures ScatteredRow(rows, masks, finals, advantages, width, Scaled(masks[i], advantages[at][FirstMax(masks[finals[at]])]), i)
  {
    forall j, k: nat, t | 0 <= j < |finals| && rows[finals[j]].session == rows[i].session && IsFirstLargest(masks[finals[j]], k) && 0 <= t < width
      ensures Scaled(masks[i], advantages[at][FirstMax(masks[finals[at]])])[t] == masks[i][t] as real * advantages[j][k]
    {
      assert j == at;
      OneFirstLargest(masks[finals[at]], k);
    }
  }

  lemma OneFirstLargest(mask: seq<int>, k: nat)
    requires mask != []
    ensures IsFirstLargest(mask, k) <==> k == FirstMax(mask)
  {
  }

  function SessionsOf(rows: seq<Row>, finals: seq<nat>): seq<string>
    requires forall j :: 0 <= j < |finals| ==> finals[j] < |rows|
  {
    seq(|finals|, j requires 0 <= j < |finals| => rows[finals[j]].session)
  }

  /** The final row of every session, in the order in which the sessions were met, and where the session of a row is found among them. */
  method FinalRows(names: seq<string>)
    returns (error: Option<Error>, finals: seq<nat>, local: map<string, nat>, rowSessions: seq<string>, ghost rows: seq<Row>)
    ensures error.None? <==> AllWellFormed(names)
    ensures error.Some? ==> FirstError(names, error.value)
    ensures error.None? ==> RowsRead(names, rows, rowSessions) && |rows| == |names| && Selected(rows, finals) && Located(rows, finals, local)
    ensures error.None? ==> FirstMet(rows, SessionsOf(rows, finals))
  {
    var finalSessions, order;
    error, finalSessions, order, rowSessions, rows := FindFinalSessions(names);
    finals, local := [], map[];
    if error.Some? { return; }
    finals, local := SelectFinals(finalSessions, order);
    PickedSelected(rows, finalSessions, order);
    OrderLocates(rows, finalSessions, order, local);
    assert SessionsOf(rows, finals) == order;
  }

  /** compute_advantage_for_multi_trajectories, for GRPO. Row i of the result is its mask, position by position, times one
      advantage: that of the final row of its session, at the first position k at which that row's mask is largest. With
      masks of zeros and ones k is the first valid token. */
  method AdvantageForSessions(names: seq<string>, masks: seq<seq<int>>, ghost width: nat, estimate: seq<nat> -> seq<seq<real>>)
    returns (r: Result<seq<seq<real>>>, ghost rows: seq<Row>, ghost finals: seq<nat>)
    requires |masks| == |names| && width > 0 && Rectangular(masks, width) && Estimates(estimate, |names|, width)
    ensures r.Ok? <==> forall i :: 0 <= i < |names| ==>
      |Fields(names[i])| == 3 && Fields(names[i])[2] != [] &&
      forall d :: 0 <= d < |Fields(names[i])[2]| ==> '0' <= Fields(names[i])[2][d] <= '9'
    ensures r.Raise? ==> FirstError(names, r.error)
    ensures r.Ok? ==> |rows| == |names| && forall i :: 0 <= i < |names| ==> rows[i] == RowOf(names[i])
    ensures r.Ok? ==> Selected(rows, finals) && FirstMet(rows, SessionsOf(rows, finals)) && Fitting(masks, finals, estimate(finals), width)
    ensures r.Ok? ==> forall i, j :: 0 <= i < |names| && 0 <= j < |finals| && rows[finals[j]].session == rows[i].session ==>
      rows[i].index <= rows[finals[j]].index
    ensures r.Ok? ==> |r.value| == |names| && forall i :: 0 <= i < |names| ==> |r.value[i]| == width
    ensures r.Ok? ==> forall i, j, k, t ::
      (0 <= i < |names| && 0 <= j < |finals| && rows[finals[j]].session == rows[i].session && 0 <= k < width && 0 <= t < width &&
       forall u :: 0 <= u < width ==> masks[finals[j]][u] <= masks[finals[j]][k] && (u < k ==> masks[finals[j]][u] < masks[finals[j]][k])) ==>
        r.value[i][t] == masks[i][t] as real * estimate(finals)[j][k]
    ensures r.Ok? ==> forall i, t :: 0 <= i < |names| && 0 <= t < width && masks[i][t] == 0 ==> r.value[i][t] == 0.0
  {
    var error, selected, local, rowSessions;
    error, selected, local, rowSessions, rows := FinalRows(names);
    finals := selected;
    if error.Some? { return Raise(error.value), rows, finals; }
    Estimated(masks, width, estimate, selected);
    var out := ScatterScores(masks, rowSessions, local, selected, estimate(selected), width, rows);
    r := Ok(out);
    ScatteredAt(rows, masks, finals, estimate(finals), width, out);
    MaskedOut(rows, masks, finals, estimate(finals), width, out);
  }

  lemma ScatteredAt(rows: seq<Row>, masks: seq<seq<int>>, finals: seq<nat>, advantages: seq<seq<real>>, width: nat, out: seq<seq<real>>)
    requires |masks| == |rows| && Selected(rows, finals) && Fitting(masks, finals, advantages, width)
    requires Scattered(rows, masks, finals, advantages, width, out)
    ensures forall i :: 0 <= i < |out| ==> |out[i]| == width
    ensures forall i, j, k, t ::
      (0 <= i < |rows| && 0 <= j < |finals| && rows[finals[j]].session == rows[i].session && 0 <= k < width && 0 <= t < width &&
       forall u :: 0 <= u < width ==> masks[finals[j]][u] <= masks[finals[j]][k] && (u < k ==> masks[finals[j]][u] < masks[finals[j]][k])) ==>
        out[i][t] == masks[i][t] as real * advantages[j][k]
  {
    forall i, j, k, t |
      0 <= i < |rows| && 0 <= j < |finals| && rows[finals[j]].session == rows[i].session && 0 <= k < width && 0 <= t < width &&
      forall u :: 0 <= u < width ==> masks[finals[j]][u] <= masks[finals[j]][k] && (u < k ==> masks[finals[j]][u] < masks[finals[j]][k])
      ensures out[i][t] == masks[i][t] as real * advantages[j][k]
    {
      assert ScatteredRow(rows, masks, finals, advantages, width, out[i], i);
      assert IsFirstLargest(masks[finals[j]], k);
    }
  }

  /** Positions that are masked get nothing. */
  lemma MaskedOut(rows: seq<Row>, masks: seq<seq<int>>, finals: seq<nat>, advantages: seq<seq<real>>, width: nat, out: seq<seq<real>>)
    requires |masks| == |rows| && Selected(rows, finals) && Fitting(masks, finals, advantages, width)
    requires Scattered(rows, masks, finals, advantages, width, out)
    ensures forall i, t :: 0 <= i < |rows| && 0 <= t < width && masks[i][t] == 0 ==> out[i][t] == 0.0
  {
    forall i, t | 0 <= i < |rows| && 0 <= t < width && masks[i][t] == 0 ensures out[i][t] == 0.0 {
      assert ScatteredRow(rows, masks, finals, advantages, width, out[i], i);
      assert Represented(rows, finals, rows[i].session);
      var j :| 0 <= j < |finals| && finals[j] < |rows| && rows[finals[j]].session == rows[i].session;
      OneFirstLargest(masks[finals[j]], FirstMax(masks[finals[j]]));
    }
  }

  lemma Estimated(masks: seq<seq<int>>, width: nat, estimate: seq<nat> -> seq<seq<real>>, finals: seq<nat>)
    requires width > 0 && Rectangular(masks, width) && Estimates(estimate, |masks|, width)
    requires forall j :: 0 <= j < |finals| ==> finals[j] < |masks|
    ensures Fitting(masks, finals, estimate(finals), width)
  {
  }
}
