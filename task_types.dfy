/** The task record shared by the API routes and the dashboard
    (lib/types.ts). Timestamps are integers (milliseconds); the optional
    `_id` is an `Option`. */
module TaskTypes {
  import Seqs

  datatype Option<+T> = None | Some(value: T)

  /** One expected file: the name it is downloaded under and the name it must be stored as. */
  datatype TaskFile = TaskFile(downloadName: string, requiredName: string)

  /** Expected file counts per format. */
  datatype Formats = Formats(xlsx: nat, csv: nat, txt: nat, mail: nat)

  datatype LoadType = DirectLoad | IndirectLoad

  /** The string a load type is stored and compared as. */
  function LoadTypeName(l: LoadType): (name: string)
    ensures name == "Direct load" <==> l == DirectLoad
    ensures name == "Indirect load" <==> l == IndirectLoad
  {
    match l
    case DirectLoad => "Direct load"
    case IndirectLoad => "Indirect load"
  }

  datatype Task = Task(
    id: Option<string>,
    retailer: string,
    day: string,
    fileCount: int,
    formats: Formats,
    loadType: LoadType,
    link: string,
    username: string,
    password: string,
    files: seq<TaskFile>,
    completed: bool,
    createdAt: int,
    updatedAt: int)

  /** Every task carries an identifier (true of every record the store returns). */
  predicate HasIds(tasks: seq<Task>) {
    forall i :: 0 <= i < |tasks| ==> tasks[i].id.Some?
  }

  /** No identifier is shared by two positions. */
  predicate DistinctIds(tasks: seq<Task>) {
    forall i, j :: 0 <= i < j < |tasks| && tasks[i].id.Some? ==> tasks[i].id != tasks[j].id
  }

  /** The identifiers present in `tasks`. */
  function IdSet(tasks: seq<Task>): (ids: set<string>)
    ensures forall i :: 0 <= i < |tasks| && tasks[i].id.Some? ==> tasks[i].id.value in ids
    ensures forall x :: x in ids ==> exists i :: 0 <= i < |tasks| && tasks[i].id == Some(x)
  {
    set i | 0 <= i < |tasks| && tasks[i].id.Some? :: tasks[i].id.value
  }

  /** With distinct identifiers on every task, there are as many identifiers as tasks. */
  lemma {:induction false} IdSetSize(tasks: seq<Task>)
    requires HasIds(tasks) && DistinctIds(tasks)
    ensures |IdSet(tasks)| == |tasks|
  {
    if tasks != [] {
      var rest := tasks[1..];
      assert HasIds(rest) && DistinctIds(rest) by {
        forall i, j | 0 <= i < j < |rest| ensures rest[i].id != rest[j].id {
          assert rest[i] == tasks[i + 1] && rest[j] == tasks[j + 1];
        }
      }
      IdSetSize(rest);
      assert IdSet(tasks) == {tasks[0].id.value} + IdSet(rest) by {
        forall x | x in IdSet(tasks) ensures x in {tasks[0].id.value} + IdSet(rest) {
          var i :| 0 <= i < |tasks| && tasks[i].id == Some(x);
          if i > 0 { assert rest[i - 1] == tasks[i]; }
        }
        forall x | x in IdSet(rest) ensures x in IdSet(tasks) {
          var i :| 0 <= i < |rest| && rest[i].id == Some(x);
          assert tasks[i + 1] == rest[i];
        }
      }
      assert tasks[0].id.value !in IdSet(rest) by {
        forall i | 0 <= i < |rest| ensures rest[i].id != tasks[0].id {
          assert rest[i] == tasks[i + 1];
        }
      }
    }
  }

  /** A sequence drawing each task at most as often as a list with distinct
      ids does has distinct ids itself. */
  lemma DistinctIdsOfSubMultiset(tasks: seq<Task>, sub: seq<Task>)
    requires HasIds(tasks) && DistinctIds(tasks)
    requires multiset(sub) <= multiset(tasks)
    ensures HasIds(sub) && DistinctIds(sub)
  {
    assert forall t :: t in sub ==> t in tasks by {
      forall t | t in sub ensures t in tasks {
        assert multiset(sub)[t] > 0;
      }
    }
    forall i | 0 <= i < |sub| ensures sub[i].id.Some? {
      assert sub[i] in tasks;
      var a :| 0 <= a < |tasks| && tasks[a] == sub[i];
    }
    assert Seqs.NoDuplicates(tasks) by {
      forall i, j | 0 <= i < j < |tasks| ensures tasks[i] != tasks[j] {
        assert tasks[i].id != tasks[j].id;
      }
    }
    Seqs.NoDuplicatesCount(tasks);
    Seqs.NoDuplicatesCount(sub);
    assert Seqs.NoDuplicates(sub);
    forall i, j | 0 <= i < j < |sub| && sub[i].id.Some? ensures sub[i].id != sub[j].id {
      assert sub[i] in tasks && sub[j] in tasks;
      var a :| 0 <= a < |tasks| && tasks[a] == sub[i];
      var b :| 0 <= b < |tasks| && tasks[b] == sub[j];
      if a < b {
        assert tasks[a].id != tasks[b].id;
      } else if b < a {
        assert tasks[b].id != tasks[a].id;
      }
    }
  }
}
