/** The tournament-creation wizard's UI store: the current step, the draft
    opponents (each keyed by a temporary id) and the tournament name. */
module DashboardStore {
  import opened Common

  /** A file picked in the browser, by handle. */
  datatype ImageFile = ImageFile(handle: nat)

  datatype WizardOpponent = WizardOpponent(
    tempId: string,
    name: string,
    imageFile: Option<ImageFile>,
    imagePreview: Option<string>)

  /** `Partial<WizardOpponent>`: each field is either given (`Some`) or left
      as it is. */
  datatype OpponentUpdate = OpponentUpdate(
    tempId: Option<string>,
    name: Option<string>,
    imageFile: Option<Option<ImageFile>>,
    imagePreview: Option<Option<string>>)

  // ---------------------------------------------------------------------------
  // Temporary ids: "temp-" followed by the counter in decimal
  // ---------------------------------------------------------------------------

  const Digits: string := "0123456789"

  function DigitValue(c: char): (d: nat)
  {
    if '0' <= c <= '9' then c as nat - '0' as nat else 0
  }

  /** The decimal rendering of `n` (JavaScript's `String(n)` for a counter). */
  function Decimal(n: nat): (s: string)
    ensures |s| >= 1
  {
    if n < 10 then [Digits[n]] else Decimal(n / 10) + [Digits[n % 10]]
  }

  function ParseDecimal(s: string): (n: nat)
  {
    if s == [] then 0 else 10 * ParseDecimal(s[..|s| - 1]) + DigitValue(s[|s| - 1])
  }

  lemma {:induction false} DecimalRoundTrip(n: nat)
    ensures ParseDecimal(Decimal(n)) == n
  {
    var s := Decimal(n);
    assert Digits == ['0', '1', '2', '3', '4', '5', '6', '7', '8', '9'];
    if n >= 10 {
      DecimalRoundTrip(n / 10);
      assert s[..|s| - 1] == Decimal(n / 10);
    }
  }

  function TempId(n: nat): (id: string)
  {
    "temp-" + Decimal(n)
  }

  /** Different counter values give different temporary ids. */
  lemma TempIdInjective(a: nat, b: nat)
    ensures TempId(a) == TempId(b) ==> a == b
  {
    if TempId(a) == TempId(b) {
      assert Decimal(a) == TempId(a)[5..];
      assert Decimal(b) == TempId(b)[5..];
      DecimalRoundTrip(a);
      DecimalRoundTrip(b);
    }
  }

  /** The ids handed out while the counter went from 0 to `n`. */
  ghost function Issued(n: nat): set<string>
  {
    set k | 1 <= k <= n :: TempId(k)
  }

  /** The next id the counter hands out has never been handed out before. */
  lemma NextTempIdFresh(n: nat)
    ensures TempId(n + 1) !in Issued(n)
    ensures Issued(n + 1) == Issued(n) + {TempId(n + 1)}
  {
    if TempId(n + 1) in Issued(n) {
      var k :| 1 <= k <= n && TempId(k) == TempId(n + 1);
      TempIdInjective(k, n + 1);
    }
  }

  function EmptyOpponent(tempId: string): WizardOpponent
  {
    WizardOpponent(tempId, "", None, None)
  }

  // ---------------------------------------------------------------------------
  // The list actions
  // ---------------------------------------------------------------------------

  /** `filter((o) => o.tempId !== tempId)` */
  function Without(s: seq<WizardOpponent>, tempId: string): (r: seq<WizardOpponent>)
    ensures |r| <= |s|
  {
    if s == [] then []
    else if s[0].tempId == tempId then Without(s[1..], tempId)
    else [s[0]] + Without(s[1..], tempId)
  }

  /** Removing keeps exactly the entries with another id: none with the id is
      left and every other one is. */
  lemma {:induction false} WithoutMembers(s: seq<WizardOpponent>, tempId: string)
    ensures forall o :: o in Without(s, tempId) <==> o in s && o.tempId != tempId
  {
    if s != [] {
      WithoutMembers(s[1..], tempId);
      assert forall o :: o in s <==> o == s[0] || o in s[1..];
    }
  }

  /** One step of `Without` on a list with a known head. */
  lemma WithoutCons(h: WizardOpponent, rest: seq<WizardOpponent>, tempId: string)
    ensures Without([h] + rest, tempId) == if h.tempId == tempId then Without(rest, tempId) else [h] + Without(rest, tempId)
  {
    assert ([h] + rest)[1..] == rest;
  }

  /** The survivors keep their order: removing from a concatenation removes
      from each part. */
  lemma {:induction false} WithoutAppend(s: seq<WizardOpponent>, t: seq<WizardOpponent>, tempId: string)
    ensures Without(s + t, tempId) == Without(s, tempId) + Without(t, tempId)
  {
    if s == [] {
      assert s + t == t;
    } else {
      var h, s1 := s[0], s[1..];
      assert s == [h] + s1;
      assert s + t == [h] + (s1 + t);
      WithoutAppend(s1, t, tempId);
      WithoutCons(h, s1 + t, tempId);
      WithoutCons(h, s1, tempId);
      if h.tempId != tempId {
        assert [h] + (Without(s1, tempId) + Without(t, tempId)) == ([h] + Without(s1, tempId)) + Without(t, tempId);
      }
    }
  }

  /** A list without the id is left as it is. */
  lemma {:induction false} WithoutAbsent(s: seq<WizardOpponent>, tempId: string)
    requires forall i :: 0 <= i < |s| ==> s[i].tempId != tempId
    ensures Without(s, tempId) == s
  {
    if s != [] {
      WithoutAbsent(s[1..], tempId);
      assert s == [s[0]] + s[1..];
    }
  }

  /** `{ ...o, ...updates }` */
  function Merge(o: WizardOpponent, u: OpponentUpdate): (r: WizardOpponent)
  {
    WizardOpponent(
      if u.tempId.Some? then u.tempId.value else o.tempId,
      if u.name.Some? then u.name.value else o.name,
      if u.imageFile.Some? then u.imageFile.value else o.imageFile,
      if u.imagePreview.Some? then u.imagePreview.value else o.imagePreview)
  }

  /** `map((o) => o.tempId === tempId ? { ...o, ...updates } : o)` */
  function MergeInto(s: seq<WizardOpponent>, tempId: string, u: OpponentUpdate): (r: seq<WizardOpponent>)
  {
    seq(|s|, i requires 0 <= i < |s| => if s[i].tempId == tempId then Merge(s[i], u) else s[i])
  }

  /** Updating keeps the length and every entry with another id, changes only
      the given fields of the matching entries, is a no-op when no entry
      matches, and (unless the update renames) keeps every entry's id. */
  lemma MergeIntoProperties(s: seq<WizardOpponent>, tempId: string, u: OpponentUpdate)
    ensures |MergeInto(s, tempId, u)| == |s|
    ensures forall i :: 0 <= i < |s| && s[i].tempId != tempId ==> MergeInto(s, tempId, u)[i] == s[i]
    ensures forall i :: 0 <= i < |s| && s[i].tempId == tempId ==>
      && MergeInto(s, tempId, u)[i].name == (if u.name.Some? then u.name.value else s[i].name)
      && MergeInto(s, tempId, u)[i].imageFile == (if u.imageFile.Some? then u.imageFile.value else s[i].imageFile)
      && MergeInto(s, tempId, u)[i].imagePreview == (if u.imagePreview.Some? then u.imagePreview.value else s[i].imagePreview)
    ensures (forall i :: 0 <= i < |s| ==> s[i].tempId != tempId) ==> MergeInto(s, tempId, u) == s
    ensures u.tempId.None? ==> forall i :: 0 <= i < |s| ==> MergeInto(s, tempId, u)[i].tempId == s[i].tempId
  {
  }

  class DashboardUIState {
    var wizardStep: int
    var wizardOpponents: seq<WizardOpponent>
    var tournamentName: string
    /** The module-wide counter behind the temporary ids. */
    var nextTempId: nat

    /** The store as the module creates it: the counter starts at 0, so the
        two initial opponents are `temp-1` and `temp-2`. */
    constructor ()
      ensures wizardStep == 1 && tournamentName == ""
      ensures wizardOpponents == [EmptyOpponent(TempId(1)), EmptyOpponent(TempId(2))]
      ensures nextTempId == 2
    {
      wizardStep := 1;
      tournamentName := "";
      nextTempId := 2;
      wizardOpponents := [EmptyOpponent(TempId(1)), EmptyOpponent(TempId(2))];
    }

    /** `createEmptyOpponent`: an empty opponent under the next counter value,
        an id never handed out before. */
    method CreateEmptyOpponent() returns (o: WizardOpponent)
      modifies this
      ensures nextTempId == old(nextTempId) + 1
      ensures o == EmptyOpponent(TempId(nextTempId))
      ensures o.tempId !in Issued(old(nextTempId)) && Issued(nextTempId) == Issued(old(nextTempId)) + {o.tempId}
      ensures wizardStep == old(wizardStep) && wizardOpponents == old(wizardOpponents)
      ensures tournamentName == old(tournamentName)
    {
      NextTempIdFresh(nextTempId);
      nextTempId := nextTempId + 1;
      o := EmptyOpponent(TempId(nextTempId));
    }

    method SetWizardStep(step: int)
      modifies this
      ensures wizardStep == step
      ensures wizardOpponents == old(wizardOpponents) && tournamentName == old(tournamentName)
      ensures nextTempId == old(nextTempId)
    {
      wizardStep := step;
    }

    /** `addOpponent`: one fresh empty opponent at the end, the others kept. */
    method AddOpponent()
      modifies this
      ensures nextTempId == old(nextTempId) + 1
      ensures wizardOpponents == old(wizardOpponents) + [EmptyOpponent(TempId(nextTempId))]
      ensures TempId(nextTempId) !in Issued(old(nextTempId))
      ensures wizardStep == old(wizardStep) && tournamentName == old(tournamentName)
    {
      var o := CreateEmptyOpponent();
      wizardOpponents := wizardOpponents + [o];
    }

    method RemoveOpponent(tempId: string)
      modifies this
      ensures wizardOpponents == Without(old(wizardOpponents), tempId)
      ensures wizardStep == old(wizardStep) && tournamentName == old(tournamentName)
      ensures nextTempId == old(nextTempId)
    {
      wizardOpponents := Without(wizardOpponents, tempId);
    }

    method UpdateOpponent(tempId: string, updates: OpponentUpdate)
      modifies this
      ensures wizardOpponents == MergeInto(old(wizardOpponents), tempId, updates)
      ensures wizardStep == old(wizardStep) && tournamentName == old(tournamentName)
      ensures nextTempId == old(nextTempId)
    {
      wizardOpponents := MergeInto(wizardOpponents, tempId, updates);
    }

    method SetTournamentName(name: string)
      modifies this
      ensures tournamentName == name
      ensures wizardStep == old(wizardStep) && wizardOpponents == old(wizardOpponents)
      ensures nextTempId == old(nextTempId)
    {
      tournamentName := name;
    }

    /** `resetWizard`: step 1, an empty name and two new empty opponents; the
        counter is not reset, so their ids are new. */
    method ResetWizard()
      modifies this
      ensures wizardStep == 1 && tournamentName == ""
      ensures nextTempId == old(nextTempId) + 2
      ensures wizardOpponents == [EmptyOpponent(TempId(nextTempId - 1)), EmptyOpponent(TempId(nextTempId))]
      ensures TempId(nextTempId - 1) !in Issued(old(nextTempId)) && TempId(nextTempId) !in Issued(old(nextTempId))
      ensures TempId(nextTempId - 1) != TempId(nextTempId)
    {
      var first := CreateEmptyOpponent();
      var second := CreateEmptyOpponent();
      TempIdInjective(nextTempId - 1, nextTempId);
      wizardStep := 1;
      wizardOpponents := [first, second];
      tournamentName := "";
    }
  }
}
