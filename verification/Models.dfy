/** The records that the Hub and the Agents exchange. */
module Models {
  type Id = string

  datatype Option<+T> = None | Some(value: T)

  /** The four kinds of synchronised object. */
  datatype Kind = Script | Task | Schedule | Application

  /** Identity of a synchronised object: the key of its table and of its tombstone. */
  datatype Ref = Ref(kind: Kind, id: Id)

  datatype TargetType = NodeTarget | GroupTarget | LabelTarget | OtherTarget

  datatype Target = Target(kind: TargetType, nodeIds: seq<Id>, groupIds: seq<Id>, labelKey: string, labelValue: string)

  /** The fields the protocol looks at; everything else a definition carries is `body`. */
  datatype Definition =
    | ScriptDef(scriptEnabled: bool, body: string)
    | TaskDef(taskEnabled: bool, target: Target, scriptId: Id, body: string)
    | ScheduleDef(scheduleEnabled: bool, taskId: Id, body: string)
    | ApplicationDef(body: string)

  datatype Object = Object(id: Id, revision: nat, def: Definition)

  function KindOf(d: Definition): Kind {
    match d
    case ScriptDef(_, _) => Script
    case TaskDef(_, _, _, _) => Task
    case ScheduleDef(_, _, _) => Schedule
    case ApplicationDef(_) => Application
  }

  function RefOf(o: Object): Ref {
    Ref(KindOf(o.def), o.id)
  }

  /** A node group; `isLabel` is the test `type == "label"`. */
  datatype Group = Group(name: string, isLabel: bool, labelKey: string, labelValue: string)

  type Labels = map<string, string>

  /** The label test shared by label groups and label targets. */
  predicate LabelHit(labels: Labels, key: string, value: string) {
    key in labels && (value == "" || labels[key] == value)
  }

  /** The states of an execution, on the Agent and on the Hub. */
  datatype Status = Pending | Running | Success | Failed | Skipped | Canceled | TimedOut | Blocked

  predicate Terminal(s: Status) {
    !s.Pending? && !s.Running?
  }

  type Byte = bv8
  type Bytes = seq<Byte>

  function Concat(chunks: seq<Bytes>): Bytes {
    if |chunks| == 0 then [] else Concat(chunks[..|chunks| - 1]) + chunks[|chunks| - 1]
  }
}
