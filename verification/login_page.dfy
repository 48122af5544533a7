/**
 * The login page: the login request with the e-mail in lower case, the
 * storage of the session on success, and the simulated synchronisation
 * progress bar that runs while the first synchronisation is requested.
 *
 * Progress is counted in half percent (`10` is 5%), so that the steps of
 * 3, 1.5 and 0.5 percent are whole numbers.
 */
module LoginPage {
  import opened Wrappers
  import opened Json
  import Text

  /** 99%, the ceiling of the simulated progress. */
  const Ceiling: int := 198
  /** 5%, where the progress starts. */
  const Start: int := 10
  /** 100%, set when the synchronisation request has been answered. */
  const Done: int := 200

  const DefaultLoginError: string := "Identifiants incorrects"
  const SyncFailed: string := "La synchronisation a échoué, mais vous pouvez continuer."
  const NetworkError: string := "Erreur réseau"

  /** One tick of the progress interval: +3% below 70%, +1.5% below 90%, else +0.5%, capped at 99%. */
  function Step(prev: int): int {
    if prev >= Ceiling then prev
    else
      var step := if prev < 140 then 6 else if prev < 180 then 3 else 1;
      if prev + step < Ceiling then prev + step else Ceiling
  }

  /** The progress after `n` ticks. */
  function Steps(p: int, n: nat): int {
    if n == 0 then p else Step(Steps(p, n - 1))
  }

  /** A tick never lowers the progress, never takes it past 99%, and always moves it until 99%. */
  lemma StepMeaning(p: int)
    ensures Step(p) >= p
    ensures p <= Ceiling ==> Step(p) <= Ceiling
    ensures p < Ceiling ==> Step(p) >= p + 1
    ensures p >= Ceiling ==> Step(p) == p
  {
  }

  /** Under repeated ticks the progress is non-decreasing and stays at most 99%. */
  lemma {:induction false} StepsMonotoneAndBounded(p: int, m: nat, n: nat)
    requires p <= Ceiling && m <= n
    ensures Steps(p, m) <= Steps(p, n) <= Ceiling
  {
    if m < n {
      StepsMonotoneAndBounded(p, m, n - 1);
      StepMeaning(Steps(p, n - 1));
    } else if n > 0 {
      StepsMonotoneAndBounded(p, n - 1, n - 1);
      StepMeaning(Steps(p, n - 1));
    }
  }

  /** From any point at or below 99%, 99% is reached after at most as many ticks as half percents remain. */
  lemma {:induction false} StepsReachCeiling(p: int, n: nat)
    requires p <= Ceiling && n >= Ceiling - p
    ensures Steps(p, n) == Ceiling
  {
    StepsAdvance(p, n);
    StepsMonotoneAndBounded(p, n, n);
  }

  /** Until the ceiling, each tick adds at least half a percent. */
  lemma {:induction false} StepsAdvance(p: int, n: nat)
    requires p <= Ceiling
    ensures Steps(p, n) >= (if p + n < Ceiling then p + n else Ceiling)
  {
    if n > 0 {
      StepsAdvance(p, n - 1);
      StepsMonotoneAndBounded(p, n - 1, n - 1);
      StepMeaning(Steps(p, n - 1));
    }
  }

  /** The answer to the login request: whether it is OK, its `message`, `access_token` and `user`; or a thrown error. */
  datatype LoginAnswer = Answered(ok: bool, message: string, accessToken: string, user: Object) | LoginThrew

  class LoginState {
    var email: string
    var password: string
    var error: string
    var loading: bool
    var syncing: bool
    var syncProgress: int
    /** Browser storage: the session token and the signed-in user. */
    var storedToken: Option<string>
    var storedUser: Option<Object>

    constructor()
      ensures email == "" && password == "" && error == "" && !loading && !syncing && syncProgress == 0
      ensures storedToken == None && storedUser == None
    {
      email := "";
      password := "";
      error := "";
      loading := false;
      syncing := false;
      syncProgress := 0;
      storedToken := None;
      storedUser := None;
    }

    /**
     * `handleSubmit`. `answer` is the login answer; `ticks` is how many
     * times the progress interval fires before the synchronisation
     * request settles, and `syncOk` whether it is answered (else it throws).
     * Returns the body sent and whether the page then leaves for home.
     */
    method Submit(answer: LoginAnswer, ticks: nat, syncOk: bool) returns (sent: Object, leaves: bool)
      modifies this
      ensures sent == map["email" := Str(Text.LowerAscii(old(email))), "password" := Str(old(password))]
      ensures answer.LoginThrew? ==>
        error == NetworkError && !loading && !leaves && syncing == old(syncing) &&
        syncProgress == old(syncProgress) && storedToken == old(storedToken) && storedUser == old(storedUser)
      ensures answer.Answered? && !answer.ok ==>
        error == (if answer.message != "" then answer.message else DefaultLoginError) && !loading && !leaves &&
        syncing == old(syncing) && syncProgress == old(syncProgress) &&
        storedToken == old(storedToken) && storedUser == old(storedUser)
      ensures answer.Answered? && answer.ok ==>
        && storedToken == Some(answer.accessToken) && storedUser == Some(answer.user)
        && !loading && leaves
        && (syncOk ==> syncing && syncProgress == Done && error == "")
        && (!syncOk ==> !syncing && syncProgress == Steps(Start, ticks) && error == SyncFailed)
      ensures email == old(email) && password == old(password)
    {
      error := "";
      loading := true;
      sent := map["email" := Str(Text.LowerAscii(email)), "password" := Str(password)];
      if answer.LoginThrew? {
        error := NetworkError;
        loading := false;
        return sent, false;
      }
      if !answer.ok {
        error := if answer.message != "" then answer.message else DefaultLoginError;
        loading := false;
        return sent, false;
      }
      storedToken := Some(answer.accessToken);
      storedUser := Some(answer.user);
      loading := false;
      syncing := true;
      syncProgress := Start;
      var fired := 0;
      while fired < ticks
        invariant 0 <= fired <= ticks && syncProgress == Steps(Start, fired)
        invariant storedToken == Some(answer.accessToken) && storedUser == Some(answer.user)
        invariant !loading && syncing && error == "" && email == old(email) && password == old(password)
      {
        syncProgress := Step(syncProgress);
        fired := fired + 1;
      }
      if syncOk {
        syncProgress := Done;
      } else {
        error := SyncFailed;
        syncing := false;
      }
      leaves := true;
    }
  }
}
