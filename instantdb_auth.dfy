/** The `useInstantDBAuth` hook: one run of its effect (`syncAuth`) decides, from
    whether a Stack Auth user and an InstantDB user are present, to sign out of
    InstantDB, to sign in to it with a token from the backend, or to do nothing.
    The SDK and network calls are recorded as effects; their outcomes are inputs. */
module InstantDBAuth {
  import opened Wrappers

  /** The four cases of `syncAuth`, in the order the source tests them. */
  datatype SyncCase =
    | SignOutStale       // no Stack user, an InstantDB user: fire-and-forget sign-out
    | NothingSignedOut   // neither user: nothing to do
    | NothingSignedIn    // both users (whatever their ids): nothing to do
    | SignIn             // a Stack user, no InstantDB user: token exchange and sign-in

  /** The case split: which of the four cases a Stack Auth user and an InstantDB user select. */
  function Decide(stackPresent: bool, instantPresent: bool): (c: SyncCase)
    ensures c == SignOutStale <==> !stackPresent && instantPresent
    ensures c == NothingSignedOut <==> !stackPresent && !instantPresent
    ensures c == NothingSignedIn <==> stackPresent && instantPresent
    ensures c == SignIn <==> stackPresent && !instantPresent
  {
    if !stackPresent && instantPresent then SignOutStale
    else if !stackPresent then NothingSignedOut
    else if instantPresent then NothingSignedIn
    else SignIn
  }

  /** A value a promise rejected with: an `Error` (with its message) or anything else. */
  datatype Thrown = ErrorObject(message: string) | NonError

  /** What `fetch("/api/auth/instantdb")` and `response.json()` gave. */
  datatype TokenOutcome =
    | FetchRejected(reason: Thrown)    // the request itself failed
    | NotOk(statusText: string)        // `response.ok` was false
    | BodyRejected(reason: Thrown)     // `response.json()` or the destructuring threw
    | TokenReceived(token: string)

  /** What `db.auth.signInWithToken(token)` gave. */
  datatype SignInOutcome = SignedIn | SignInRejected(reason: Thrown)

  /** At which await the effect's cleanup (`isMounted = false`) ran, if at all during the run. */
  datatype Teardown =
    | StaysMounted
    | WhileAwaitingToken    // during `fetch` or `response.json()`
    | WhileAwaitingSignIn   // during `signInWithToken`; after the run if that is never reached

  /** A call the hook issues into InstantDB or the backend. */
  datatype Effect = SignOutCall | TokenRequest | SignInWithTokenCall(token: string)

  /** The message `setError` receives for a caught value: an `Error`'s own message, else a fixed text. */
  function ErrorMessage(t: Thrown): string {
    match t
    case ErrorObject(msg) => msg
    case NonError => "Authentication failed"
  }

  /** The value the sign-in path leaves in `error` when it runs to the end mounted. */
  function FinalError(token: TokenOutcome, signIn: SignInOutcome): (e: Option<string>)
    ensures e.None? <==> token.TokenReceived? && signIn.SignedIn?
    ensures token.NotOk? ==> e == Some("Failed to authenticate: " + token.statusText)
  {
    match token
    case FetchRejected(t) => Some(ErrorMessage(t))
    case NotOk(statusText) => Some("Failed to authenticate: " + statusText)
    case BodyRejected(t) => Some(ErrorMessage(t))
    case TokenReceived(_) =>
      match signIn
      case SignedIn => None
      case SignInRejected(t) => Some(ErrorMessage(t))
  }

  /** The token request completes and the run reaches `signInWithToken`. */
  predicate ReachesSignIn(token: TokenOutcome, teardown: Teardown) {
    token.TokenReceived? && teardown != WhileAwaitingToken
  }

  /** The hook's state: the two `useState` cells, the current run's `isMounted`
      cell, and the calls issued so far. */
  class AuthSync {
    var isAuthenticating: bool
    var error: Option<string>
    var mounted: bool
    var effects: seq<Effect>

    /** The hook on its first render. */
    constructor ()
      ensures !isAuthenticating && error == None && mounted && effects == []
    {
      isAuthenticating, error, mounted, effects := false, None, true, [];
    }

    /** The effect's cleanup: the run's `isMounted` cell becomes false. */
    method Cleanup()
      modifies this
      ensures !mounted
      ensures isAuthenticating == old(isAuthenticating) && error == old(error) && effects == old(effects)
    {
      mounted := false;
    }

    /** The sign-in path: set the flags, request a token, sign in with it, and settle the
        flags in `finally`; entered synchronously in a mounted run. */
    method SignInPath(token: TokenOutcome, signIn: SignInOutcome, teardown: Teardown)
      requires mounted
      modifies this
      // the token is always requested; sign-in only with a token and only while mounted
      ensures effects == old(effects) + [TokenRequest]
        + (if ReachesSignIn(token, teardown) then [SignInWithTokenCall(token.token)] else [])
      ensures mounted <==> teardown == StaysMounted
      // torn down at an await that was reached: the state stays as the path's start left it
      ensures teardown == WhileAwaitingToken || (teardown == WhileAwaitingSignIn && token.TokenReceived?) ==>
        isAuthenticating && error == None
      // otherwise the run finished mounted: not authenticating, and the error says why
      ensures teardown == StaysMounted || (teardown == WhileAwaitingSignIn && !token.TokenReceived?) ==>
        !isAuthenticating && error == FinalError(token, signIn)
    {
      isAuthenticating := true;
      error := None;
      effects := effects + [TokenRequest];
      if teardown == WhileAwaitingToken {
        mounted := false;
      }
      match token {
        case TokenReceived(t) =>
          if !mounted {
            // unmounted after the token arrived: return; the finally block finds the run torn down
          } else {
            effects := effects + [SignInWithTokenCall(t)];
            if teardown == WhileAwaitingSignIn {
              mounted := false;
            }
            match signIn {
              case SignedIn =>
              case SignInRejected(reason) =>
                if mounted {
                  error := Some(ErrorMessage(reason));
                }
            }
          }
        case NotOk(statusText) =>
          if mounted {
            error := Some("Failed to authenticate: " + statusText);
          }
        case FetchRejected(reason) =>
          if mounted {
            error := Some(ErrorMessage(reason));
          }
        case BodyRejected(reason) =>
          if mounted {
            error := Some(ErrorMessage(reason));
          }
      }
      if mounted {
        isAuthenticating := false;
      }
      if teardown == WhileAwaitingSignIn {
        mounted := false;
      }
    }

    /** One run of the effect: a fresh `isMounted` cell, then the case split. */
    method SyncAuth(stackPresent: bool, instantPresent: bool,
                    token: TokenOutcome, signIn: SignInOutcome, teardown: Teardown)
      modifies this
      // no Stack user, an InstantDB user: exactly one sign-out, the hook's state untouched
      ensures Decide(stackPresent, instantPresent) == SignOutStale ==>
        && effects == old(effects) + [SignOutCall]
        && isAuthenticating == old(isAuthenticating) && error == old(error)
      // the two nothing-to-do cases, account mismatch included: no call, no state change
      ensures Decide(stackPresent, instantPresent) in {NothingSignedOut, NothingSignedIn} ==>
        && effects == old(effects)
        && isAuthenticating == old(isAuthenticating) && error == old(error)
      ensures Decide(stackPresent, instantPresent) != SignIn ==> mounted
      // the sign-in case
      ensures Decide(stackPresent, instantPresent) == SignIn ==>
        && effects == old(effects) + [TokenRequest]
             + (if ReachesSignIn(token, teardown) then [SignInWithTokenCall(token.token)] else [])
        && (mounted <==> teardown == StaysMounted)
        && (teardown == WhileAwaitingToken || (teardown == WhileAwaitingSignIn && token.TokenReceived?) ==>
              isAuthenticating && error == None)
        && (teardown == StaysMounted || (teardown == WhileAwaitingSignIn && !token.TokenReceived?) ==>
              !isAuthenticating && error == FinalError(token, signIn))
    {
      mounted := true;
      match Decide(stackPresent, instantPresent) {
        case SignOutStale =>
          // db.auth.signOut() is not awaited; a synchronous throw is only logged
          effects := effects + [SignOutCall];
        case NothingSignedOut =>
        case NothingSignedIn =>
        case SignIn =>
          SignInPath(token, signIn, teardown);
      }
    }
  }

  /** A client of the class: a sign-in run that succeeds, then a re-run once the InstantDB
      user appears, issue a token request and one sign-in, and nothing more. */
  method SignInThenSettle(hook: AuthSync, token: string)
    requires hook.effects == []
    modifies hook
    ensures hook.effects == [TokenRequest, SignInWithTokenCall(token)]
    ensures !hook.isAuthenticating && hook.error == None
  {
    hook.SyncAuth(true, false, TokenReceived(token), SignedIn, StaysMounted);
    hook.Cleanup();
    hook.SyncAuth(true, true, TokenReceived(token), SignedIn, StaysMounted);
  }
}
