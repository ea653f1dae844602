/** The profile back-fill script (`scripts/createPatientProfiles.js`): every
    account with role patient that has no profile gets one, holding the
    account's name and email, and the account records the new profile's id. */
module Backfill {
  import opened Common
  import opened Models
  import opened Store

  /** An account the script acts on: a patient account without a profile. */
  predicate Eligible(s: State, u: UserId) {
    u in s.users && s.users[u].role == PatientRole && u !in s.patients
  }

  /** The profile the script creates for an account. */
  function ProfileFor(user: User, id: PatientId): Patient {
    Patient(id, Some(user.name), Some(user.email), None, None, None, None, None)
  }

  /** One pass of the loop body for account `u`. */
  function BackfillOne(s: State, u: UserId): State {
    if Eligible(s, u) then
      var pid := s.nextId;
      s.(patients := s.patients[u := ProfileFor(s.users[u], pid)],
         users := s.users[u := s.users[u].(profileId := Some(pid))],
         nextId := pid + 1)
    else s
  }

  /** The loop body creates a profile exactly for an eligible account, under
      a fresh id, and then that account is no longer eligible, so a second
      pass over the same account does nothing. */
  lemma BackfillOneEffect(s: State, u: UserId)
    requires Consistent(s)
    ensures !Eligible(BackfillOne(s, u), u)
    ensures BackfillOne(BackfillOne(s, u), u) == BackfillOne(s, u)
    ensures !Eligible(s, u) <==> BackfillOne(s, u) == s
    ensures Eligible(s, u) ==>
      var t := BackfillOne(s, u);
      && t.patients == s.patients[u := ProfileFor(s.users[u], s.nextId)]
      && (forall v :: v in s.patients ==> s.patients[v].id != s.nextId)
      && t.users == s.users[u := s.users[u].(profileId := Some(s.nextId))]
    ensures Consistent(BackfillOne(s, u))
  {
    if Eligible(s, u) {
      assert BackfillOne(s, u).nextId == s.nextId + 1;
    }
  }

  /** What the loop has done after handling every account but those in
      `todo`: accounts and the other collections are the same; every profile
      that existed is unchanged; an eligible account already handled has its
      new profile and records its id; no other account changed and no other
      profile appeared. */
  ghost predicate Progress(s0: State, s: State, todo: set<UserId>) {
    && Frame(s0, s)
    && KeepsOld(s0, s)
    && NoStrangers(s0, s, todo)
    && Done(s0, s, todo)
    && Untouched(s0, s, todo)
  }

  ghost predicate Frame(s0: State, s: State) {
    s.users.Keys == s0.users.Keys && s.appointments == s0.appointments && s.doctors == s0.doctors && s0.nextId <= s.nextId
  }

  ghost predicate KeepsOld(s0: State, s: State) {
    forall u :: u in s0.patients ==> u in s.patients && s.patients[u] == s0.patients[u]
  }

  ghost predicate NoStrangers(s0: State, s: State, todo: set<UserId>) {
    forall u :: u in s.patients ==> u in s0.patients || (Eligible(s0, u) && u !in todo)
  }

  ghost predicate Done(s0: State, s: State, todo: set<UserId>) {
    forall u :: Eligible(s0, u) && u !in todo ==>
      && u in s.patients && u in s.users && s0.nextId <= s.patients[u].id
      && s.patients[u] == ProfileFor(s0.users[u], s.patients[u].id)
      && s.users[u] == s0.users[u].(profileId := Some(s.patients[u].id))
  }

  ghost predicate Untouched(s0: State, s: State, todo: set<UserId>) {
    forall u :: u in s0.users && !(Eligible(s0, u) && u !in todo) ==> u in s.users && s.users[u] == s0.users[u]
  }

  /** An account still to handle is eligible now exactly when it was at the
      start. */
  lemma PendingStaysEligible(s0: State, s: State, todo: set<UserId>, u: UserId)
    requires Frame(s0, s) && KeepsOld(s0, s) && NoStrangers(s0, s, todo) && Untouched(s0, s, todo) && u in todo
    ensures Eligible(s, u) <==> Eligible(s0, u)
  {
    if u in s0.users {
      assert s.users[u] == s0.users[u];
    }
  }

  /** The loop body keeps `Progress`, with its account taken off `todo`. */
  lemma ProgressStep(s0: State, s: State, todo: set<UserId>, u: UserId)
    requires Progress(s0, s, todo) && Consistent(s) && u in todo
    ensures Progress(s0, BackfillOne(s, u), todo - {u})
    ensures Consistent(BackfillOne(s, u))
    ensures (forall v :: !Eligible(s0, v)) && s == s0 ==> BackfillOne(s, u) == s0
  {
    BackfillOneEffect(s, u);
    PendingStaysEligible(s0, s, todo, u);
    if Eligible(s, u) {
      StepDone(s0, s, todo, u);
      StepRest(s0, s, todo, u);
    } else {
      assert BackfillOne(s, u) == s;
    }
  }

  lemma StepDone(s0: State, s: State, todo: set<UserId>, u: UserId)
    requires Frame(s0, s) && Done(s0, s, todo) && Untouched(s0, s, todo) && u in todo
    requires Eligible(s, u) && Eligible(s0, u)
    ensures Done(s0, BackfillOne(s, u), todo - {u})
  {
    var t := BackfillOne(s, u);
    forall v | Eligible(s0, v) && v !in todo - {u}
      ensures && v in t.patients && v in t.users && s0.nextId <= t.patients[v].id
              && t.patients[v] == ProfileFor(s0.users[v], t.patients[v].id)
              && t.users[v] == s0.users[v].(profileId := Some(t.patients[v].id))
    {
      if v == u {
        assert s.users[u] == s0.users[u];
      }
    }
  }

  lemma StepRest(s0: State, s: State, todo: set<UserId>, u: UserId)
    requires Frame(s0, s) && KeepsOld(s0, s) && NoStrangers(s0, s, todo) && Untouched(s0, s, todo) && u in todo
    requires Eligible(s, u) && Eligible(s0, u)
    ensures Frame(s0, BackfillOne(s, u)) && KeepsOld(s0, BackfillOne(s, u))
    ensures NoStrangers(s0, BackfillOne(s, u), todo - {u}) && Untouched(s0, BackfillOne(s, u), todo - {u})
  {
  }

  /** `createPatientProfiles`: the query for patient accounts, in whatever
      order the database returns them, then the loop. */
  method CreatePatientProfiles(db: Db)
    requires Consistent(db.Snapshot())
    modifies db
    ensures Progress(old(db.Snapshot()), db.Snapshot(), {})
    ensures Consistent(db.Snapshot())
    ensures (forall u :: !Eligible(old(db.Snapshot()), u)) ==> db.Snapshot() == old(db.Snapshot())
  {
    ghost var s0 := db.Snapshot();
    var todo := set u | u in db.users && db.users[u].role == PatientRole;
    ProgressStart(s0, todo);
    while todo != {}
      invariant Progress(s0, db.Snapshot(), todo)
      invariant Consistent(db.Snapshot())
      invariant (forall u :: !Eligible(s0, u)) ==> db.Snapshot() == s0
      decreases |todo|
    {
      var u :| u in todo;
      ghost var s := db.Snapshot();
      ProgressStep(s0, s, todo, u);
      HandleAccount(db, u);
      todo := todo - {u};
    }
  }

  /** The loop body: a profile for account `u` if it is eligible. */
  method HandleAccount(db: Db, u: UserId)
    modifies db
    ensures db.Snapshot() == BackfillOne(old(db.Snapshot()), u)
  {
    if u !in db.patients && u in db.users && db.users[u].role == PatientRole {
      var pid := db.nextId;
      db.patients := db.patients[u := ProfileFor(db.users[u], pid)];
      db.nextId := pid + 1;
      db.users := db.users[u := db.users[u].(profileId := Some(pid))];
    }
  }

  /** Before the loop nothing is done and every patient account is to do. */
  lemma ProgressStart(s0: State, todo: set<UserId>)
    requires todo == set u | u in s0.users && s0.users[u].role == PatientRole
    ensures Progress(s0, s0, todo)
  {
  }

  /** After a full run every patient account has a profile, so a second run
      changes nothing; the profiles made are new ones under fresh ids, and
      each copies its account's name and email. */
  lemma BackfillComplete(s0: State, s: State)
    requires Progress(s0, s, {})
    ensures forall u :: !Eligible(s, u)
    ensures forall u :: u in s0.users && Eligible(s0, u) ==>
      u in s.patients && s.patients[u].name == Some(s0.users[u].name) && s.patients[u].email == Some(s0.users[u].email)
      && s.users[u].profileId == Some(s.patients[u].id) && s.patients[u].id >= s0.nextId
    ensures forall u :: u in s0.users && s0.users[u].role != PatientRole ==> s.users[u] == s0.users[u]
  {
    forall u ensures !Eligible(s, u) {
      if u in s.users && Eligible(s0, u) {
        assert u in s.patients;
      } else if u in s.users {
        assert s.users[u] == s0.users[u];
      }
    }
  }
}
