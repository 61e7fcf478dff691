/** The parents' task list (Assets/Scripts/UI/Tasklist.cs): each task's
    display string is wrapped in a colour tag (completed or not) and, once
    completed, in each configured rich-text tag; the strings fill the
    message's numbered placeholders; completion messages mirror each task's
    state and the list reports when all tasks are done. Task states are
    given as snapshots; colours are given as their hexadecimal text. */
module Tasklists {
  import opened Tasks

  // ------------------------------------------------------ rich-text tags

  function OpenTag(thing: string, value: string): string {
    if |value| > 0 then "<" + thing + "=" + value + ">" else "<" + thing + ">"
  }

  function CloseTag(thing: string): string {
    "</" + thing + ">"
  }

  /** `AddRichTextTag`: `message` between an opening tag (with `=value`
      when a value is given) and the matching closing tag. */
  function AddRichTextTag(message: string, thing: string, value: string): (r: string)
    ensures r == OpenTag(thing, value) + message + CloseTag(thing)
  {
    if |value| > 0 then "<" + thing + "=" + value + ">" + message + "</" + thing + ">"
    else "<" + thing + ">" + message + "</" + thing + ">"
  }

  /** The text between the tags of a tagged string. */
  function StripRichTextTag(tagged: string, thing: string, value: string): string
    requires |OpenTag(thing, value)| + |CloseTag(thing)| <= |tagged|
  {
    tagged[|OpenTag(thing, value)|..|tagged| - |CloseTag(thing)|]
  }

  /** Tagging loses nothing: stripping the same tag gives the message back,
      so two different messages never get the same tagged text. */
  lemma StripAddRichTextTag(message: string, thing: string, value: string)
    ensures var r := AddRichTextTag(message, thing, value);
      |OpenTag(thing, value)| + |CloseTag(thing)| <= |r|
      && StripRichTextTag(r, thing, value) == message
  {
    var o, c := OpenTag(thing, value), CloseTag(thing);
    var r := o + message + c;
    assert r[|o|..|r| - |c|] == message;
  }

  lemma AddRichTextTagInjective(m1: string, m2: string, thing: string, value: string)
    requires AddRichTextTag(m1, thing, value) == AddRichTextTag(m2, thing, value)
    ensures m1 == m2
  {
    StripAddRichTextTag(m1, thing, value);
    StripAddRichTextTag(m2, thing, value);
  }

  /** Wrapping in each tag in turn; the last tag ends up outermost. */
  function WrapAll(message: string, tags: seq<string>): string {
    if tags == [] then message else AddRichTextTag(WrapAll(message, tags[..|tags| - 1]), tags[|tags| - 1], "")
  }

  /** `message` occurs in `s` starting at index `k`. */
  predicate OccursAt(s: string, message: string, k: int) {
    0 <= k <= |s| - |message| && s[k..k + |message|] == message
  }

  lemma OccursInside(a: string, inner: string, b: string, message: string, k: int)
    requires OccursAt(inner, message, k)
    ensures OccursAt(a + inner + b, message, |a| + k)
  {
    var r := a + inner + b;
    assert r[|a| + k..|a| + k + |message|] == inner[k..k + |message|];
  }

  /** Every wrap keeps the original text as one contiguous piece. */
  lemma {:induction false} WrapAllKeepsMessage(message: string, tags: seq<string>)
    ensures exists k :: OccursAt(WrapAll(message, tags), message, k)
  {
    if tags == [] {
      assert OccursAt(WrapAll(message, tags), message, 0);
    } else {
      var last := tags[|tags| - 1];
      var inner := WrapAll(message, tags[..|tags| - 1]);
      WrapAllKeepsMessage(message, tags[..|tags| - 1]);
      var k :| OccursAt(inner, message, k);
      OccursInside(OpenTag(last, ""), inner, CloseTag(last), message, k);
      assert WrapAll(message, tags) == OpenTag(last, "") + inner + CloseTag(last);
    }
  }

  /** The display string of one task. */
  function TaskString(taskString: string, completed: bool, completedColor: string, notCompletedColor: string,
                      completedRichTextTags: seq<string>): string
  {
    var colored := Colored(taskString, if completed then completedColor else notCompletedColor);
    if completed then WrapAll(colored, completedRichTextTags) else colored
  }

  /** The task string inside its colour tag. */
  function Colored(taskString: string, color: string): string {
    AddRichTextTag(taskString, "color", "#" + color)
  }

  /** The tag loop of `GetTaskStringWithTags`: each tag in turn wraps the
      text so far. */
  method WrapInTags(message: string, tags: seq<string>) returns (s: string)
    ensures s == WrapAll(message, tags)
  {
    s := message;
    var j := 0;
    while j < |tags|
      invariant 0 <= j <= |tags|
      invariant s == WrapAll(message, tags[..j])
    {
      assert tags[..j + 1][..j] == tags[..j];
      s := AddRichTextTag(s, tags[j], "");
      j := j + 1;
    }
    assert tags[..j] == tags;
  }

  // ------------------------------------------------------------ task list

  class Tasklist {
    const taskStrings: seq<string>
    const completedColor: string
    const notCompletedColor: string
    const completedRichTextTags: seq<string>
    /** Whether each completion message object is active. */
    const completedMessages: array<bool>

    constructor (taskStrings: seq<string>, completedColor: string, notCompletedColor: string,
                 completedRichTextTags: seq<string>, messageCount: nat)
      ensures this.taskStrings == taskStrings && this.completedColor == completedColor
      ensures this.notCompletedColor == notCompletedColor && this.completedRichTextTags == completedRichTextTags
      ensures completedMessages.Length == messageCount && fresh(completedMessages)
    {
      this.taskStrings := taskStrings;
      this.completedColor := completedColor;
      this.notCompletedColor := notCompletedColor;
      this.completedRichTextTags := completedRichTextTags;
      completedMessages := new bool[messageCount](_ => false);
    }

    /** `GetTaskStringWithTags` for task `i`. */
    method GetTaskStringWithTags(task: Task, i: nat) returns (s: string)
      requires i < |taskStrings|
      ensures s == TaskString(taskStrings[i], Completed(task), completedColor, notCompletedColor, completedRichTextTags)
    {
      var isCompleted := Completed(task);
      s := Colored(taskStrings[i], if isCompleted then completedColor else notCompletedColor);
      if isCompleted {
        s := WrapInTags(s, completedRichTextTags);
      }
    }

    /** The placeholder arguments of `UpdateParentsMessage`: one display
        string per task that has a task string. Formatting them into the
        message is not part of the model. */
    method ParentsMessageArguments(tasks: seq<Task>) returns (args: seq<string>)
      ensures |args| == if |tasks| < |taskStrings| then |tasks| else |taskStrings|
      ensures forall i :: 0 <= i < |args| ==>
        args[i] == TaskString(taskStrings[i], Completed(tasks[i]), completedColor, notCompletedColor, completedRichTextTags)
    {
      args := [];
      var i := 0;
      while i < |tasks| && i < |taskStrings|
        invariant 0 <= i <= |tasks| && i <= |taskStrings|
        invariant |args| == i
        invariant forall j :: 0 <= j < i ==>
          args[j] == TaskString(taskStrings[j], Completed(tasks[j]), completedColor, notCompletedColor, completedRichTextTags)
      {
        var replacing := GetTaskStringWithTags(tasks[i], i);
        args := args + [replacing];
        i := i + 1;
      }
    }

    /** `Task_OnTaskCompleted`: the message arguments are rebuilt, each
        completion message with a task shows that task's state, the rest are
        untouched, and the result says whether every task is completed. */
    method TaskCompleted(tasks: seq<Task>) returns (args: seq<string>, allTasksCompleted: bool)
      modifies completedMessages
      ensures |args| == if |tasks| < |taskStrings| then |tasks| else |taskStrings|
      ensures forall i :: 0 <= i < |args| ==>
        args[i] == TaskString(taskStrings[i], Completed(tasks[i]), completedColor, notCompletedColor, completedRichTextTags)
      ensures forall i :: 0 <= i < completedMessages.Length ==>
        completedMessages[i] == if i < |tasks| then Completed(tasks[i]) else old(completedMessages[i])
      ensures allTasksCompleted <==> forall i :: 0 <= i < |tasks| ==> Completed(tasks[i])
    {
      args := ParentsMessageArguments(tasks);
      allTasksCompleted := true;
      var i := 0;
      while i < |tasks|
        invariant 0 <= i <= |tasks|
        invariant forall j :: 0 <= j < completedMessages.Length ==>
          completedMessages[j] == if j < i then Completed(tasks[j]) else old(completedMessages[j])
        invariant allTasksCompleted <==> forall j :: 0 <= j < i ==> Completed(tasks[j])
      {
        var taskCompleted := Completed(tasks[i]);
        if i < completedMessages.Length {
          completedMessages[i] := taskCompleted;
        }
        if !taskCompleted {
          allTasksCompleted := false;
        }
        i := i + 1;
      }
    }
  }
}
