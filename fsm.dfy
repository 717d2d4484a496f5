/**
 * aiogram's in-memory FSM storage, shared by the dispatcher, the survey
 * engine and the admin panel: one record (state, data) per storage key.
 * The bot runs a single bot id, so a key is the pair (chat id, user id).
 * The only data any handler stores is the survey's working record.
 */
module Fsm {
  import opened Wrappers

  datatype Key = Key(chat: int, user: int)

  /** `Idle` is aiogram's `None` state; the others are `SurveyStates` and `AdminStates`. */
  datatype State = Idle | Consent | InProgress | AuthRequested | Authenticated

  /** The survey's data dict: `current_question` and `answers`
    * (the `start_time` entry, a wall-clock reading, is not modelled). */
  datatype SurveyData = SurveyData(currentQuestion: int, answers: map<string, string>)

  /** `data == None` stands for the empty dict `{}`. */
  datatype Record = Record(state: State, data: Option<SurveyData>)

  const Cleared := Record(Idle, None)

  /** What `get_state`/`get_data` see for a key; absent keys read as cleared. */
  function Lookup(records: map<Key, Record>, k: Key): Record {
    if k in records then records[k] else Cleared
  }

  class FsmStorage {
    var records: map<Key, Record>

    constructor ()
      ensures records == map[]
    {
      records := map[];
    }

    function Get(k: Key): Record
      reads this
    {
      Lookup(records, k)
    }

    /** `state.set_state(s)`: the data dict is kept. */
    method SetState(k: Key, s: State)
      modifies this
      ensures records == old(records)[k := Record(s, old(Get(k)).data)]
    {
      records := records[k := Record(s, Get(k).data)];
    }

    /** `state.set_data(d)`: the state is kept. */
    method SetData(k: Key, d: SurveyData)
      modifies this
      ensures records == old(records)[k := Record(old(Get(k)).state, Some(d))]
    {
      records := records[k := Record(Get(k).state, Some(d))];
    }

    /** `state.clear()`: state `None` and an empty data dict. */
    method Clear(k: Key)
      modifies this
      ensures records == old(records)[k := Cleared]
    {
      records := records[k := Cleared];
    }
  }
}
