/** The LINE bot's registration conversation (`handle_message`). Each user's
    progress lives in one module-level dictionary: under the user's LINE id the
    step ("waiting_for_name" or "waiting_for_phone"), and under `<id>_name` the
    name typed so far. The two database lookups and the insert are represented by
    what they report, and the reply by which message is sent. */
module LineRegistration {
  import opened Common

  const WaitingForName: string := "waiting_for_name"
  const WaitingForPhone: string := "waiting_for_phone"
  const RegisterCommand: string := "註冊"
  const CancelCommand: string := "取消"
  const ReenterCommand: string := "重新輸入"
  const CustomerServiceWords: seq<string> := ["客服", "詢問客服", "詢問"]
  const UnselectedLocation: string := "未選擇"

  /** A dictionary key: the user's LINE id, or the id with the `_name` suffix. */
  datatype Key = StateOf(user: string) | NameOf(user: string)

  /** Which reply the bot sends; `NoReply` when the handler raises before replying. */
  datatype Reply =
    | AlreadyRegistered
    | AskName
    | Cancelled
    | InvalidName
    | AskPhone(name: string)
    | AskNameAgain
    | RepeatAskName
    | InvalidPhone
    | PhoneTaken
    | Registered(registeredName: Option<string>, phone: string)
    | RegistrationError
    | CustomerService
    | Help
    | NoReply

  /** What the database reports for this message: whether the LINE id is already
      bound to a user, whether the phone is already registered, and whether this
      message's database work raises (the "註冊" lookup, or the phone step's
      queries before anything is committed). */
  datatype Db = Db(lineIdBound: bool, phoneTaken: bool, fails: bool)

  /** The `users` row the phone step inserts. */
  datatype UserRow = UserRow(name: Option<string>, phone: string, location: string, isDriver: bool, lineUserId: string)

  /** The dictionary after a message, the reply, and the row inserted if any. */
  datatype Outcome = Outcome(states: map<Key, string>, reply: Reply, inserted: Option<UserRow>)

  // ===========================================================================
  // Text checks
  // ===========================================================================

  /** The characters Python's `str.strip()` removes. */
  predicate IsPySpace(c: char)
  {
    ('\t' <= c <= '\r') || ('\U{1C}' <= c <= '\U{1F}') || c == ' ' || c == '\U{85}' || c == '\U{A0}'
    || c == '\U{1680}' || ('\U{2000}' <= c <= '\U{200A}') || c == '\U{2028}' || c == '\U{2029}'
    || c == '\U{202F}' || c == '\U{205F}' || c == '\U{3000}'
  }

  function StripStart(s: string): (r: string)
    ensures |r| <= |s|
    ensures r == [] || !IsPySpace(r[0])
  {
    if s != [] && IsPySpace(s[0]) then StripStart(s[1..]) else s
  }

  function StripEnd(s: string): (r: string)
    ensures |r| <= |s|
    ensures r != [] ==> r[0] == s[0]
    ensures r == [] || !IsPySpace(r[|r| - 1])
  {
    if s != [] && IsPySpace(s[|s| - 1]) then StripEnd(s[..|s| - 1]) else s
  }

  /** Python's `str.strip()`. */
  function Strip(s: string): (r: string)
    ensures r == [] || (!IsPySpace(r[0]) && !IsPySpace(r[|r| - 1]))
  {
    StripEnd(StripStart(s))
  }

  /** A string with no surrounding whitespace is its own strip. */
  lemma StripUnchanged(s: string)
    requires s == [] || (!IsPySpace(s[0]) && !IsPySpace(s[|s| - 1]))
    ensures Strip(s) == s
  {
  }

  /** One character of `[一-龥A-Za-z]`. */
  predicate IsNameChar(c: char)
  {
    ('\U{4E00}' <= c <= '\U{9FA5}') || ('A' <= c <= 'Z') || ('a' <= c <= 'z')
  }

  /** The whole string matches `^[一-龥A-Za-z]+$`. */
  predicate ValidName(s: string)
  {
    |s| >= 1 && forall i :: 0 <= i < |s| ==> IsNameChar(s[i])
  }

  /** The digits `str.isdigit` recognises in the model: ASCII, superscript and
      subscript, Arabic-Indic, Devanagari and fullwidth digits. */
  predicate IsPyDigit(c: char)
  {
    ('0' <= c <= '9') || c == '\U{B2}' || c == '\U{B3}' || c == '\U{B9}'
    || c == '\U{2070}' || ('\U{2074}' <= c <= '\U{2079}') || ('\U{2080}' <= c <= '\U{2089}')
    || ('\U{660}' <= c <= '\U{669}') || ('\U{6F0}' <= c <= '\U{6F9}')
    || ('\U{966}' <= c <= '\U{96F}') || ('\U{FF10}' <= c <= '\U{FF19}')
  }

  /** `phone.isdigit() and 7 <= len(phone) <= 10`. */
  predicate ValidPhone(s: string)
  {
    7 <= |s| <= 10 && forall i :: 0 <= i < |s| ==> IsPyDigit(s[i])
  }

  /** A valid name has no surrounding whitespace, so stripping it changes nothing. */
  lemma ValidNameStripped(s: string)
    requires ValidName(s)
    ensures Strip(s) == s
  {
    StripUnchanged(s);
  }

  /** "重新輸入" is itself a valid name. */
  lemma ReenterIsValidName()
    ensures ValidName(ReenterCommand) && Strip(ReenterCommand) == ReenterCommand
  {
    ValidNameStripped(ReenterCommand);
  }

  // ===========================================================================
  // One message
  // ===========================================================================

  /** `user_states.get(key)`. */
  function Get(states: map<Key, string>, k: Key): (r: Option<string>)
    ensures r.Some? <==> k in states
    ensures r.Some? ==> r.value == states[k]
  {
    if k in states then Some(states[k]) else None
  }

  /** The effect of one message from `user`, branch by branch in the handler's order. */
  function Step(states: map<Key, string>, user: string, message: string, db: Db): Outcome
  {
    var st := StateOf(user);
    var nm := NameOf(user);
    if message == RegisterCommand then
      if db.fails then Outcome(states, NoReply, None)
      else if db.lineIdBound then Outcome(states, AlreadyRegistered, None)
      else Outcome(states[st := WaitingForName], AskName, None)
    else if message == CancelCommand then
      Outcome(states - {st, nm}, Cancelled, None)
    else if Get(states, st) == Some(WaitingForName) then
      AtNameStep(states, user, message)
    else if message == ReenterCommand && Get(states, st) == Some(WaitingForPhone) then
      Outcome(states[st := WaitingForName] - {nm}, AskNameAgain, None)
    else if message == ReenterCommand && Get(states, st) == Some(WaitingForName) then
      Outcome(states, RepeatAskName, None)
    else if Get(states, st) == Some(WaitingForPhone) then
      AtPhoneStep(states, user, message, db)
    else if message in CustomerServiceWords then Outcome(states, CustomerService, None)
    else Outcome(states, Help, None)
  }

  /** A message at the name step: a valid stripped name is stored and the step
      moves on; anything else is refused. */
  function AtNameStep(states: map<Key, string>, user: string, message: string): (out: Outcome)
    ensures out.inserted.None?
  {
    var name := Strip(message);
    if !ValidName(name) then Outcome(states, InvalidName, None)
    else Outcome(states[NameOf(user) := name][StateOf(user) := WaitingForPhone], AskPhone(name), None)
  }

  /** A message at the phone step. */
  function AtPhoneStep(states: map<Key, string>, user: string, message: string, db: Db): Outcome
  {
    var st := StateOf(user);
    var nm := NameOf(user);
    var phone := Strip(message);
    if !ValidPhone(phone) then Outcome(states, InvalidPhone, None)
    else if db.fails then Outcome(states - {st, nm}, RegistrationError, None)
    else if db.phoneTaken then Outcome(states, PhoneTaken, None)
    else
      var name := Get(states, nm);
      Outcome(states - {st, nm}, Registered(name, phone), Some(UserRow(name, phone, UnselectedLocation, false, user)))
  }

  // ===========================================================================
  // The in-place dictionary
  // ===========================================================================

  /** Every step value is one of the two step names, every stored name is valid,
      and a user waiting for a phone has a stored name. */
  ghost predicate WellFormed(states: map<Key, string>)
  {
    && (forall k :: k in states && k.StateOf? ==> states[k] == WaitingForName || states[k] == WaitingForPhone)
    && (forall k :: k in states && k.NameOf? ==> ValidName(states[k]))
    && (forall u :: StateOf(u) in states && states[StateOf(u)] == WaitingForPhone ==> NameOf(u) in states)
  }

  /** The bot, holding `user_states`. */
  class RegistrationBot {
    var userStates: map<Key, string>

    constructor ()
      ensures userStates == map[] && WellFormed(userStates)
    {
      userStates := map[];
    }

    /** `handle_message`: updates the dictionary in place, key by key. Only a
        well-formed dictionary is reachable (the constructor makes one and every
        call keeps it so); on others the phone step's outcome is the model's, not
        the handler's `KeyError` for a missing name. */
    method HandleMessage(user: string, message: string, db: Db) returns (reply: Reply, inserted: Option<UserRow>)
      modifies this
      ensures Outcome(userStates, reply, inserted) == Step(old(userStates), user, message, db)
      ensures WellFormed(old(userStates)) ==> WellFormed(userStates)
    {
      StepKeepsWellFormed(userStates, user, message, db);
      inserted := None;
      var st := StateOf(user);
      if message == RegisterCommand {
        if db.fails {
          return NoReply, None;
        }
        if db.lineIdBound {
          return AlreadyRegistered, None;
        }
        userStates := userStates[st := WaitingForName];
        return AskName, None;
      }
      if message == CancelCommand {
        ForgetUser(user);
        return Cancelled, None;
      }
      if st in userStates && userStates[st] == WaitingForName {
        reply := HandleName(user, message);
        return;
      }
      if message == ReenterCommand {
        if st in userStates && userStates[st] == WaitingForPhone {
          var nm := NameOf(user);
          userStates := userStates[st := WaitingForName];
          if nm in userStates {
            userStates := userStates - {nm};
          }
          return AskNameAgain, None;
        } else if st in userStates && userStates[st] == WaitingForName {
          return RepeatAskName, None;
        }
      }
      if st in userStates && userStates[st] == WaitingForPhone {
        reply, inserted := HandlePhone(user, message, db);
        return;
      }
      if message in CustomerServiceWords {
        reply := CustomerService;
      } else {
        reply := Help;
      }
    }

    /** Deletes both of the user's keys where present. */
    method ForgetUser(user: string)
      modifies this
      ensures userStates == old(userStates) - {StateOf(user), NameOf(user)}
    {
      var st := StateOf(user);
      var nm := NameOf(user);
      if st in userStates {
        userStates := userStates - {st};
      }
      if nm in userStates {
        userStates := userStates - {nm};
      }
    }

    /** The name step of `handle_message`. */
    method HandleName(user: string, message: string) returns (reply: Reply)
      modifies this
      ensures Outcome(userStates, reply, None) == AtNameStep(old(userStates), user, message)
    {
      var name := Strip(message);
      if !ValidName(name) {
        return InvalidName;
      }
      userStates := userStates[NameOf(user) := name];
      userStates := userStates[StateOf(user) := WaitingForPhone];
      return AskPhone(name);
    }

    /** The phone step of `handle_message`. */
    method HandlePhone(user: string, message: string, db: Db) returns (reply: Reply, inserted: Option<UserRow>)
      modifies this
      ensures Outcome(userStates, reply, inserted) == AtPhoneStep(old(userStates), user, message, db)
    {
      var nm := NameOf(user);
      var phone := Strip(message);
      var name := if nm in userStates then Some(userStates[nm]) else None;
      if !ValidPhone(phone) {
        return InvalidPhone, None;
      }
      if db.fails {
        ForgetUser(user);
        return RegistrationError, None;
      }
      if db.phoneTaken {
        return PhoneTaken, None;
      }
      inserted := Some(UserRow(name, phone, UnselectedLocation, false, user));
      reply := Registered(name, phone);
      ForgetUser(user);
    }
  }

  // ===========================================================================
  // Properties of a step
  // ===========================================================================

  /** A step touches only the sender's two keys. */
  lemma StepOnlyTouchesSender(states: map<Key, string>, user: string, message: string, db: Db, k: Key)
    requires k.user != user
    ensures var after := Step(states, user, message, db).states;
            (k in after <==> k in states) && (k in states ==> after[k] == states[k])
  {
    var st := StateOf(user);
    if message != RegisterCommand && message != CancelCommand {
      if Get(states, st) == Some(WaitingForName) {
        NameStepOnlyTouchesSender(states, user, message, k);
      } else if Get(states, st) == Some(WaitingForPhone) && message != ReenterCommand {
        PhoneStepOnlyTouchesSender(states, user, message, db, k);
      }
    }
  }

  lemma NameStepOnlyTouchesSender(states: map<Key, string>, user: string, message: string, k: Key)
    requires k.user != user
    ensures var after := AtNameStep(states, user, message).states;
            (k in after <==> k in states) && (k in states ==> after[k] == states[k])
  {
  }

  lemma PhoneStepOnlyTouchesSender(states: map<Key, string>, user: string, message: string, db: Db, k: Key)
    requires k.user != user
    ensures var after := AtPhoneStep(states, user, message, db).states;
            (k in after <==> k in states) && (k in states ==> after[k] == states[k])
  {
  }

  /** "註冊": a failing lookup sends no reply and changes nothing; a bound LINE id
      changes nothing; otherwise the user starts over at the name step, whatever
      step they were at. */
  lemma RegisterSpec(states: map<Key, string>, user: string, db: Db)
    ensures var out := Step(states, user, RegisterCommand, db);
            && (db.fails ==> out == Outcome(states, NoReply, None))
            && (!db.fails && db.lineIdBound ==> out == Outcome(states, AlreadyRegistered, None))
            && (!db.fails && !db.lineIdBound ==> out.states == states[StateOf(user) := WaitingForName] && out.reply == AskName)
  {
  }

  /** "取消" removes both of the sender's keys, whatever step they were at. */
  lemma CancelSpec(states: map<Key, string>, user: string, db: Db)
    ensures var out := Step(states, user, CancelCommand, db);
            && StateOf(user) !in out.states && NameOf(user) !in out.states
            && (forall k :: k in states && k != StateOf(user) && k != NameOf(user) ==> k in out.states && out.states[k] == states[k])
            && (forall k :: k in out.states ==> k in states)
            && out.reply == Cancelled && out.inserted.None?
  {
  }

  /** At the name step, a message that strips to a valid name is stored and the
      user moves to the phone step; any other text changes nothing. */
  lemma NameStepSpec(states: map<Key, string>, user: string, message: string, db: Db)
    requires Get(states, StateOf(user)) == Some(WaitingForName)
    requires message != RegisterCommand && message != CancelCommand
    ensures var out := Step(states, user, message, db);
            && (ValidName(Strip(message)) ==>
                  out.states == states[NameOf(user) := Strip(message)][StateOf(user) := WaitingForPhone])
            && (!ValidName(Strip(message)) ==> out == Outcome(states, InvalidName, None))
  {
  }

  /** At the name step "重新輸入" is taken as a name, so the handler's own
      "重新輸入" branch for that step is never reached. */
  lemma ReenterAtNameStep(states: map<Key, string>, user: string, db: Db)
    requires Get(states, StateOf(user)) == Some(WaitingForName)
    ensures Step(states, user, ReenterCommand, db).states
         == states[NameOf(user) := ReenterCommand][StateOf(user) := WaitingForPhone]
  {
    ReenterIsValidName();
  }

  lemma RepeatAskNameUnreachable(states: map<Key, string>, user: string, message: string, db: Db)
    ensures Step(states, user, message, db).reply != RepeatAskName
  {
    if message == ReenterCommand {
      ReenterIsValidName();
    }
  }

  /** At the phone step "重新輸入" returns to the name step and forgets the name. */
  lemma ReenterAtPhoneStep(states: map<Key, string>, user: string, db: Db)
    requires Get(states, StateOf(user)) == Some(WaitingForPhone)
    ensures var out := Step(states, user, ReenterCommand, db);
            out.states == states[StateOf(user) := WaitingForName] - {NameOf(user)} && out.reply == AskNameAgain
  {
  }

  /** At the phone step: a malformed or already registered phone changes nothing;
      a database failure clears both keys; otherwise the row is inserted with the
      stored name, location "未選擇" and no driver flag, and both keys are cleared. */
  lemma PhoneStepSpec(states: map<Key, string>, user: string, message: string, db: Db)
    requires Get(states, StateOf(user)) == Some(WaitingForPhone)
    requires message != RegisterCommand && message != CancelCommand && message != ReenterCommand
    ensures var out := Step(states, user, message, db);
            var phone := Strip(message);
            && (!ValidPhone(phone) ==> out == Outcome(states, InvalidPhone, None))
            && (ValidPhone(phone) && !db.fails && db.phoneTaken ==> out == Outcome(states, PhoneTaken, None))
            && (ValidPhone(phone) && db.fails ==>
                  out.states == states - {StateOf(user), NameOf(user)} && out.inserted.None?)
            && (ValidPhone(phone) && !db.fails && !db.phoneTaken ==>
                  && out.states == states - {StateOf(user), NameOf(user)}
                  && out.inserted == Some(UserRow(Get(states, NameOf(user)), phone, UnselectedLocation, false, user)))
  {
  }

  /** Only the phone step inserts a row. */
  lemma InsertOnlyFromPhoneStep(states: map<Key, string>, user: string, message: string, db: Db)
    requires Step(states, user, message, db).inserted.Some?
    ensures Get(states, StateOf(user)) == Some(WaitingForPhone)
    ensures ValidPhone(Strip(message)) && !db.fails && !db.phoneTaken
  {
  }

  lemma ForgetKeepsWellFormed(states: map<Key, string>, user: string)
    requires WellFormed(states)
    ensures WellFormed(states - {StateOf(user), NameOf(user)})
  {
  }

  lemma RestartKeepsWellFormed(states: map<Key, string>, user: string)
    requires WellFormed(states)
    ensures WellFormed(states[StateOf(user) := WaitingForName])
    ensures WellFormed(states[StateOf(user) := WaitingForName] - {NameOf(user)})
  {
  }

  lemma NamedKeepsWellFormed(states: map<Key, string>, user: string, name: string)
    requires WellFormed(states) && ValidName(name)
    ensures WellFormed(states[NameOf(user) := name][StateOf(user) := WaitingForPhone])
  {
  }

  lemma NameStepKeepsWellFormed(states: map<Key, string>, user: string, message: string)
    requires WellFormed(states)
    ensures WellFormed(AtNameStep(states, user, message).states)
  {
    if ValidName(Strip(message)) {
      NamedKeepsWellFormed(states, user, Strip(message));
    }
  }

  lemma PhoneStepKeepsWellFormed(states: map<Key, string>, user: string, message: string, db: Db)
    requires WellFormed(states)
    ensures WellFormed(AtPhoneStep(states, user, message, db).states)
  {
    ForgetKeepsWellFormed(states, user);
  }

  /** Every step keeps the dictionary well formed. */
  lemma StepKeepsWellFormed(states: map<Key, string>, user: string, message: string, db: Db)
    ensures WellFormed(states) ==> WellFormed(Step(states, user, message, db).states)
  {
    if WellFormed(states) {
      var st := StateOf(user);
      if message == RegisterCommand {
        RestartKeepsWellFormed(states, user);
      } else if message == CancelCommand {
        ForgetKeepsWellFormed(states, user);
      } else if Get(states, st) == Some(WaitingForName) {
        NameStepKeepsWellFormed(states, user, message);
      } else if message == ReenterCommand && Get(states, st) == Some(WaitingForPhone) {
        RestartKeepsWellFormed(states, user);
      } else if Get(states, st) == Some(WaitingForPhone) {
        PhoneStepKeepsWellFormed(states, user, message, db);
      }
    }
  }

  /** In a well-formed dictionary every inserted row carries a valid name and phone. */
  lemma InsertedRowValid(states: map<Key, string>, user: string, message: string, db: Db)
    requires WellFormed(states)
    requires Step(states, user, message, db).inserted.Some?
    ensures var row := Step(states, user, message, db).inserted.value;
            && row.name.Some? && ValidName(row.name.value) && ValidPhone(row.phone)
            && row.location == UnselectedLocation && !row.isDriver && row.lineUserId == user
            && Step(states, user, message, db).reply == Registered(row.name, row.phone)
  {
    InsertOnlyFromPhoneStep(states, user, message, db);
  }

  /** "註冊", a valid name, then a free valid phone register the user and leave no
      key of theirs behind. */
  lemma HappyPath(states: map<Key, string>, user: string, name: string, phone: string, db: Db)
    requires !db.lineIdBound && !db.phoneTaken && !db.fails
    requires ValidName(name) && name != RegisterCommand && name != CancelCommand
    requires ValidPhone(phone)
    ensures var s1 := Step(states, user, RegisterCommand, db).states;
            var s2 := Step(s1, user, name, db).states;
            var out := Step(s2, user, phone, db);
            && out.inserted == Some(UserRow(Some(name), phone, UnselectedLocation, false, user))
            && out.reply == Registered(Some(name), phone)
            && StateOf(user) !in out.states && NameOf(user) !in out.states
  {
    RegisterSpec(states, user, db);
    var s1 := Step(states, user, RegisterCommand, db).states;
    AcceptsName(s1, user, name, db);
    var s2 := Step(s1, user, name, db).states;
    AcceptsPhone(s2, user, name, phone, db);
  }

  lemma AcceptsName(states: map<Key, string>, user: string, name: string, db: Db)
    requires Get(states, StateOf(user)) == Some(WaitingForName)
    requires ValidName(name) && name != RegisterCommand && name != CancelCommand
    ensures var after := Step(states, user, name, db).states;
            Get(after, StateOf(user)) == Some(WaitingForPhone) && Get(after, NameOf(user)) == Some(name)
  {
    ValidNameStripped(name);
    NameStepSpec(states, user, name, db);
  }

  lemma AcceptsPhone(states: map<Key, string>, user: string, name: string, phone: string, db: Db)
    requires Get(states, StateOf(user)) == Some(WaitingForPhone) && Get(states, NameOf(user)) == Some(name)
    requires ValidPhone(phone) && !db.fails && !db.phoneTaken
    ensures var out := Step(states, user, phone, db);
            && out.inserted == Some(UserRow(Some(name), phone, UnselectedLocation, false, user))
            && out.reply == Registered(Some(name), phone)
            && StateOf(user) !in out.states && NameOf(user) !in out.states
  {
    PhoneStripped(phone);
    PhoneStepSpec(states, user, phone, db);
  }

  /** A valid phone is no command and has no surrounding whitespace. */
  lemma PhoneStripped(phone: string)
    requires ValidPhone(phone)
    ensures Strip(phone) == phone
    ensures phone != RegisterCommand && phone != CancelCommand && phone != ReenterCommand
  {
    assert IsPyDigit(phone[0]) && IsPyDigit(phone[|phone| - 1]);
    StripUnchanged(phone);
  }
}
