/** The task record the sidebar form appends to the session's task list. */
module Tasks {

  datatype Option<T> = None | Some(value: T)

  /** The three difficulties the form offers. */
  datatype Hardness = Easy | Medium | Hard

  /** A task is Pending when added and Completed only by the user's action. */
  datatype Status = Pending | Completed

  /** One entry of the task list: its name, difficulty, free window and deadline
      (timestamps in seconds) and its status. */
  datatype Task = Task(
    name: string,
    hardness: Hardness,
    freeStart: int,
    freeEnd: int,
    deadline: int,
    status: Status)

  /** The key under which a difficulty is stored in a task record. */
  function HardnessName(h: Hardness): (key: string)
    ensures key == "Easy" || key == "Medium" || key == "Hard"
    ensures h == Easy <==> key == "Easy"
    ensures h == Medium <==> key == "Medium"
    ensures h == Hard <==> key == "Hard"
  {
    match h
    case Easy => "Easy"
    case Medium => "Medium"
    case Hard => "Hard"
  }

  /** Looking a key up among the difficulties; a key that is not one of the three
      names is absent (the `KeyError` of the lookup tables). */
  function ParseHardness(key: string): (r: Option<Hardness>)
    ensures r.Some? <==> key == "Easy" || key == "Medium" || key == "Hard"
    ensures r.Some? ==> HardnessName(r.value) == key
  {
    if key == "Easy" then Some(Easy)
    else if key == "Medium" then Some(Medium)
    else if key == "Hard" then Some(Hard)
    else None
  }

  /** Every difficulty is found again under its own name. */
  lemma ParseHardnessName(h: Hardness)
    ensures ParseHardness(HardnessName(h)) == Some(h)
  {
  }
}
