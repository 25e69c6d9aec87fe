/** The registration conversation of src/handlers/start.py: `/start`, then the
    name, the age and the sex, after which one user row is stored. The
    conversation state and data live in the bot framework's per-(chat, user)
    storage, keyed here by user id;
    the user table is the database's `users` table, abstracted as a sequence of
    rows whose `telegram_id` column is unique. */
module Registration {
  import opened PyText

  /** `RegistrationStates`; a user with no entry has no state. */
  datatype RegState = WaitingForName | WaitingForAge | WaitingForSex

  /** A value the handlers put into the conversation data. */
  datatype DataValue = Text(text: string) | Number(number: int)

  /** The columns `process_sex` fills in when it creates a user. */
  datatype UserRow = UserRow(telegramId: int, username: Option<string>, firstName: string, age: int, sex: string)

  const MinAge := 0
  const MaxAge := 120
  const Male := "мужской"
  const Female := "женский"

  const AlreadyRegistered := "Вы уже зарегистрированы!"
  const AskName := "Привет! Давай зарегистрируем тебя. Как тебя зовут?"
  const AskAge := "Отлично! Сколько тебе лет?"
  const AgeOutOfRange := "Пожалуйста, введите корректный возраст (от 0 до 120)."
  const NotANumberReply := "Пожалуйста, введите число."
  const AskSex := "Отлично! Укажи свой пол (мужской/женский)."
  const SexInvalid := "Пожалуйста, выберите 'мужской' или 'женский'."

  function Thanks(name: string): string {
    "Спасибо, " + name + "! Ты успешно зарегистрирован."
  }

  predicate IsRegistered(users: seq<UserRow>, id: int) {
    exists k :: 0 <= k < |users| && users[k].telegramId == id
  }

  /** The `unique=True` constraint on `users.telegram_id`. */
  predicate DistinctIds(users: seq<UserRow>) {
    forall i, j :: 0 <= i < j < |users| ==> users[i].telegramId != users[j].telegramId
  }

  // ------------------------------------------------------------ validation

  /** What `process_age` makes of a message text. */
  datatype AgeCheck = NotANumber | OutOfRange(value: int) | Accepted(age: int)

  function CheckAge(text: string): (r: AgeCheck)
    ensures r.NotANumber? <==> ParseInt(text) == None
    ensures r.OutOfRange? ==> ParseInt(text) == Some(r.value) && (r.value < MinAge || r.value > MaxAge)
    ensures r.Accepted? ==> ParseInt(text) == Some(r.age) && MinAge <= r.age <= MaxAge
  {
    match ParseInt(text)
    case None => NotANumber
    case Some(n) => if n < MinAge || n > MaxAge then OutOfRange(n) else Accepted(n)
  }

  /** A decimal age is accepted exactly when it lies in [0, 120]. */
  lemma CheckAgeOfDecimal(n: int)
    ensures CheckAge(IntToString(n)) == if MinAge <= n <= MaxAge then Accepted(n) else OutOfRange(n)
  {
    ParseIntOfIntToString(n);
  }

  /** What `process_sex` makes of a message text: the lower-cased text when it
      is one of the two accepted values. */
  function CheckSex(text: string): (r: Option<string>)
    ensures r.Some? <==> Lower(text) == Male || Lower(text) == Female
    ensures r.Some? ==> r.value == Lower(text)
  {
    var sex := Lower(text);
    if sex in [Male, Female] then Some(sex) else None
  }

  /** Both labels of the sex keyboard (`sex_choose_kb`) would be accepted if
      typed. The sex question itself is sent without that keyboard, so this
      only says what the two capitalised answers lead to. */
  lemma KeyboardSexesAccepted()
    ensures CheckSex("Мужской") == Some(Male)
    ensures CheckSex("Женский") == Some(Female)
  {
    LowerOfCapitalized("Мужской", Male);
    LowerOfCapitalized("Женский", Female);
  }

  lemma LowerOfCapitalized(word: string, lower: string)
    requires |word| == |lower| && |word| > 0 && 'А' <= word[0] <= 'Я' && word[0] as int + 32 == lower[0] as int
    requires word[1..] == lower[1..]
    requires forall k :: 1 <= k < |lower| ==> 'а' <= lower[k] <= 'я'
    ensures Lower(word) == lower
  {
    forall k | 0 <= k < |word| ensures Lower(word)[k] == lower[k] {
      if k > 0 {
        assert word[k] == word[1..][k - 1];
      }
    }
  }

  // ------------------------------------------------------------ the conversation

  type Store = map<int, map<string, DataValue>>

  /** The FSM data of user `u`; a user with no key has none. */
  function DataOf(data: Store, u: int): map<string, DataValue> {
    if u in data then data[u] else map[]
  }

  predicate HasName(data: Store, u: int) {
    "name" in DataOf(data, u) && DataOf(data, u)["name"].Text?
  }

  predicate HasAge(data: Store, u: int) {
    "age" in DataOf(data, u) && DataOf(data, u)["age"].Number? && MinAge <= DataOf(data, u)["age"].number <= MaxAge
  }

  /** Nobody registered is inside the conversation, telegram ids stay unique,
      and each later step finds what the earlier steps stored. */
  ghost predicate Consistent(states: map<int, RegState>, data: Store, users: seq<UserRow>) {
    && DistinctIds(users)
    && (forall u | u in states :: !IsRegistered(users, u))
    && (forall u | u in states && states[u] != WaitingForName :: HasName(data, u))
    && (forall u | u in states && states[u] == WaitingForSex :: HasAge(data, u))
  }

  /** Storing an accepted age keeps the conversation consistent. */
  lemma StoreAgeKeepsConsistent(states: map<int, RegState>, data: Store, users: seq<UserRow>, u: int, age: int)
    requires Consistent(states, data, users) && u in states && states[u] == WaitingForAge
    requires MinAge <= age <= MaxAge
    ensures Consistent(states[u := WaitingForSex], data[u := DataOf(data, u)["age" := Number(age)]], users)
  {
    var data' := data[u := DataOf(data, u)["age" := Number(age)]];
    forall v | v in states && v != u ensures DataOf(data', v) == DataOf(data, v) {
    }
  }

  class Conversation {
    /** Per-user FSM state; a user with no key has none. */
    var states: map<int, RegState>
    /** Per-user FSM data. */
    var data: Store
    /** The user table. */
    var users: seq<UserRow>

    ghost predicate Valid()
      reads this
    {
      Consistent(states, data, users)
    }

    constructor (existing: seq<UserRow>)
      requires DistinctIds(existing)
      ensures Valid()
      ensures states == map[] && data == map[] && users == existing
    {
      states, data, users := map[], map[], existing;
    }

    /** `cmd_start`: refused for a registered user, otherwise (in any state)
        the conversation restarts at the name; the stored data is kept. */
    method CmdStart(u: int) returns (reply: string)
      requires Valid()
      modifies this
      ensures Valid()
      ensures users == old(users) && data == old(data)
      ensures IsRegistered(users, u) ==> reply == AlreadyRegistered && states == old(states)
      ensures !IsRegistered(users, u) ==> reply == AskName && states == old(states)[u := WaitingForName]
    {
      if IsRegistered(users, u) {
        reply := AlreadyRegistered;
        return;
      }
      reply := AskName;
      states := states[u := WaitingForName];
    }

    /** `process_name`: any text becomes the name. */
    method ProcessName(u: int, text: string) returns (reply: string)
      requires Valid() && u in states && states[u] == WaitingForName
      modifies this
      ensures Valid()
      ensures users == old(users) && reply == AskAge
      ensures states == old(states)[u := WaitingForAge]
      ensures data == old(data)[u := DataOf(old(data), u)["name" := Text(text)]]
    {
      data := data[u := DataOf(data, u)["name" := Text(text)]];
      reply := AskAge;
      states := states[u := WaitingForAge];
    }

    /** `process_age`: a text that is not an integer, or an integer outside
        [0, 120], is answered and changes nothing; an accepted age is stored
        and the sex is asked for. */
    method ProcessAge(u: int, text: string) returns (reply: string)
      requires Valid() && u in states && states[u] == WaitingForAge
      modifies this
      ensures Valid()
      ensures users == old(users)
      ensures CheckAge(text).NotANumber? ==> reply == NotANumberReply && states == old(states) && data == old(data)
      ensures CheckAge(text).OutOfRange? ==> reply == AgeOutOfRange && states == old(states) && data == old(data)
      ensures CheckAge(text).Accepted? ==>
                && reply == AskSex
                && states == old(states)[u := WaitingForSex]
                && data == old(data)[u := DataOf(old(data), u)["age" := Number(CheckAge(text).age)]]
    {
      var check := CheckAge(text);
      if !check.Accepted? {
        reply := if check.NotANumber? then NotANumberReply else AgeOutOfRange;
        return;
      }
      StoreAgeKeepsConsistent(states, data, users, u, check.age);
      data := data[u := DataOf(data, u)["age" := Number(check.age)]];
      reply := AskSex;
      states := states[u := WaitingForSex];
    }

    /** `process_sex`: an unknown sex is answered and changes nothing; an
        accepted one creates exactly one user from the stored name and age and
        the lower-cased text, and clears the user's state and data. */
    method ProcessSex(u: int, username: Option<string>, text: string) returns (reply: string)
      requires Valid() && u in states && states[u] == WaitingForSex
      modifies this
      ensures Valid()
      ensures CheckSex(text).None? ==>
                reply == SexInvalid && states == old(states) && data == old(data) && users == old(users)
      ensures CheckSex(text).Some? ==>
                && var name := DataOf(old(data), u)["name"].text;
                && users == old(users) + [UserRow(u, username, name, DataOf(old(data), u)["age"].number, Lower(text))]
                && states == old(states) - {u}
                && data == old(data) - {u}
                && reply == Thanks(name)
    {
      var sex := CheckSex(text);
      if sex.None? {
        reply := SexInvalid;
        return;
      }
      var stored := DataOf(data, u);
      var name := stored["name"].text;
      var age := stored["age"].number;
      ghost var before := users;
      AppendKeepsDistinct(users, UserRow(u, username, name, age, sex.value));
      users := users + [UserRow(u, username, name, age, sex.value)];
      states := states - {u};
      data := data - {u};
      reply := Thanks(name);
      forall v | v in states ensures !IsRegistered(users, v) {
        assert !IsRegistered(before, v);
      }
    }

    /** The start router's dispatch of one text message: `/start` is matched
        first, whatever the state; otherwise the handler for the user's state
        runs, and without a registration state the router does not handle it. */
    method OnMessage(u: int, username: Option<string>, text: string) returns (handled: bool, reply: string)
      requires Valid()
      modifies this
      ensures Valid()
      ensures handled <==> IsCommand(text, "start") || u in old(states)
      ensures !handled ==> states == old(states) && data == old(data) && users == old(users)
      ensures IsCommand(text, "start") ==>
                && data == old(data) && users == old(users)
                && states == (if IsRegistered(old(users), u) then old(states) else old(states)[u := WaitingForName])
                && reply == (if IsRegistered(old(users), u) then AlreadyRegistered else AskName)
      ensures !IsCommand(text, "start") && u in old(states) && old(states)[u] == WaitingForName ==>
                && reply == AskAge && users == old(users)
                && states == old(states)[u := WaitingForAge]
                && data == old(data)[u := DataOf(old(data), u)["name" := Text(text)]]
      ensures !IsCommand(text, "start") && u in old(states) && old(states)[u] == WaitingForAge ==>
                && users == old(users)
                && (CheckAge(text).Accepted? ==>
                      && reply == AskSex
                      && states == old(states)[u := WaitingForSex]
                      && data == old(data)[u := DataOf(old(data), u)["age" := Number(CheckAge(text).age)]])
                && (!CheckAge(text).Accepted? ==> states == old(states) && data == old(data))
                && (CheckAge(text).NotANumber? ==> reply == NotANumberReply)
                && (CheckAge(text).OutOfRange? ==> reply == AgeOutOfRange)
      ensures !IsCommand(text, "start") && u in old(states) && old(states)[u] == WaitingForSex ==>
                && (CheckSex(text).None? ==>
                      reply == SexInvalid && states == old(states) && data == old(data) && users == old(users))
                && (CheckSex(text).Some? ==>
                      && users == old(users) + [UserRow(u, username, DataOf(old(data), u)["name"].text,
                                                        DataOf(old(data), u)["age"].number, Lower(text))]
                      && states == old(states) - {u} && data == old(data) - {u}
                      && reply == Thanks(DataOf(old(data), u)["name"].text))
      ensures IsRegistered(old(users), u) ==> users == old(users)
      ensures |users| <= |old(users)| + 1
    {
      if IsCommand(text, "start") {
        handled := true;
        reply := CmdStart(u);
      } else if u !in states {
        handled, reply := false, "";
      } else {
        handled := true;
        match states[u]
        case WaitingForName => reply := ProcessName(u, text);
        case WaitingForAge => reply := ProcessAge(u, text);
        case WaitingForSex => reply := ProcessSex(u, username, text);
      }
    }
  }

  /** Registering a new id keeps the ids unique: the table the conversation
      writes never holds two rows for one telegram id. */
  lemma {:induction false} AppendKeepsDistinct(users: seq<UserRow>, row: UserRow)
    requires DistinctIds(users) && !IsRegistered(users, row.telegramId)
    ensures DistinctIds(users + [row])
    ensures IsRegistered(users + [row], row.telegramId)
  {
    var all := users + [row];
    forall i, j | 0 <= i < j < |all| ensures all[i].telegramId != all[j].telegramId {
      if j == |users| {
        assert users[i].telegramId == all[i].telegramId;
      }
    }
    assert all[|users|] == row;
  }
}
