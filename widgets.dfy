/**
  The editors of the variables and functions dialog: one line per entry
  (funcWidget in tags/release-2.1.1.4/funcwidget.cpp, varWidget in
  trunk/varwidget.cpp) and the lists holding them (funcsWidget in
  trunk/funcswidget.cpp, varsWidget in tags/release-2.1.1.4/varswidget.cpp).
  Qt signals are returned as values: Some((from, to)) when a renamed signal
  is emitted. The editors use the corrected checkName and findName
  (Naming.CheckNameFixed, Naming.FindNameFixed); the routines as written
  are Naming.CheckNameSpec and Naming.FindNameSpec.
*/
module Widgets {
  import opened Wrappers
  import opened Naming
  import opened Text

  /** What rename does to an entry whose last accepted name is oldName. */
  datatype RenameEffect = RenameEffect(name: string, oldName: string, renamed: Option<(string, string)>)

  /**
    rename(newName, forceOldName): a non-empty forceOldName replaces the
    remembered old name; the sanitised new name is shown and remembered;
    renamed(old, new) is emitted only when the two differ.
  */
  function Renaming(oldName: string, newName: string, forceOldName: string): (e: RenameEffect)
    ensures e.name == CheckNameFixed(newName) && e.oldName == e.name
    ensures e.renamed.Some? <==> e.name != (if forceOldName != "" then forceOldName else oldName)
    ensures e.renamed.Some? ==> e.renamed.value == (if forceOldName != "" then forceOldName else oldName, e.name)
  {
    var from := if forceOldName != "" then forceOldName else oldName;
    var checked := CheckNameFixed(newName);
    RenameEffect(checked, checked, if checked != from then Some((from, checked)) else None)
  }

  /** Typing the same text again emits nothing: the second rename finds the name already remembered. */
  lemma RenamingSettles(oldName: string, newName: string, forceOldName: string)
    ensures Renaming(Renaming(oldName, newName, forceOldName).oldName, newName, "").renamed == None
  { }

  /** A name that is already an identifier is shown as typed, and announced unless it was the old name. */
  lemma RenamingKeepsIdentifier(oldName: string, newName: string)
    requires IsIdentifier(newName)
    ensures Renaming(oldName, newName, "").name == newName
    ensures Renaming(oldName, newName, "").renamed == if newName == oldName then None else Some((oldName, newName))
  {
    FixedIdentifierUnchanged(newName);
  }

  /** funcWidget: a name field, a body field and the name last accepted. */
  class FuncWidget {
    var name: string
    var content: string
    var oldName: string

    /** The constructor shows the name as given, without sanitising it. */
    constructor (name: string, content: string)
      ensures this.name == name && this.oldName == name && this.content == content
    {
      this.name := name;
      this.content := content;
      this.oldName := name;
    }

    method Rename(newName: string, forceOldName: string) returns (renamed: Option<(string, string)>)
      modifies this
      ensures RenameEffect(name, oldName, renamed) == Renaming(old(oldName), newName, forceOldName)
      ensures content == old(content)
    {
      if forceOldName != "" {
        oldName := forceOldName;
      }
      var checked := CheckName(newName, true);
      name := checked;
      var remember := oldName;
      oldName := checked;
      renamed := if checked != remember then Some((remember, checked)) else None;
    }
  }

  /** varWidget: a name field, a value and the name last accepted. */
  class VarWidget {
    var name: string
    var value: real
    var oldName: string

    /** The constructor sanitises the name and remembers the sanitised form. */
    constructor (name: string, value: real)
      ensures this.name == CheckNameFixed(name) && this.oldName == this.name && this.value == value
    {
      var checked := CheckName(name, true);
      this.name := checked;
      this.value := value;
      this.oldName := checked;
    }

    method Rename(newName: string, forceOldName: string) returns (renamed: Option<(string, string)>)
      modifies this
      ensures RenameEffect(name, oldName, renamed) == Renaming(old(oldName), newName, forceOldName)
      ensures value == old(value)
    {
      if forceOldName != "" {
        oldName := forceOldName;
      }
      var checked := CheckName(newName, true);
      name := checked;
      var remember := oldName;
      oldName := checked;
      renamed := if checked != remember then Some((remember, checked)) else None;
    }
  }

  /** funcsWidget: the function entries in the order they were added. */
  class FuncsWidget {
    var widgets: seq<FuncWidget>

    function Names(): (r: seq<string>)
      reads this, widgets
      ensures |r| == |widgets| && forall i :: 0 <= i < |r| ==> r[i] == widgets[i].name
    {
      seq(|widgets|, i requires 0 <= i < |widgets| reads this, widgets => widgets[i].name)
    }

    constructor ()
      ensures widgets == []
    {
      widgets := [];
    }

    /** addFunction: a new entry named after "newFunc" with body "ARG0+ARG1", announced by funcAdded. */
    method AddFunction() returns (added: (string, string))
      modifies this
      ensures |widgets| == |old(widgets)| + 1 && widgets[..|old(widgets)|] == old(widgets)
      ensures fresh(widgets[|widgets| - 1])
      ensures Names() == old(Names()) + [FindNameFixed(old(Names()), "newFunc", false)]
      ensures widgets[|widgets| - 1].content == "ARG0+ARG1"
      ensures added == (FindNameFixed(old(Names()), "newFunc", false), "ARG0+ARG1")
      ensures |old(widgets)| < USHORT_MAX ==> added.0 !in old(Names())
    {
      if |widgets| < USHORT_MAX {
        FindNameFixedUnused(Names(), "newFunc");
      }
      var newName := FindName(Names(), "newFunc", false, true);
      var w := new FuncWidget(newName, "ARG0+ARG1");
      widgets := widgets + [w];
      added := (newName, "ARG0+ARG1");
    }

    /**
      changeName, the slot for an entry's renamed signal: when findName
      (tolerating the entry itself) proposes another name, the entry is
      renamed to it with its old name forced; otherwise funcRenamed is
      emitted.
    */
    method ChangeName(oldName: string, newName: string, owner: FuncWidget)
      returns (funcRenamed: Option<(string, string)>, ownerRenamed: Option<(string, string)>)
      modifies owner
      ensures var found := FindNameFixed(old(Names()), newName, true);
        if found != newName then
          && funcRenamed == None
          && RenameEffect(owner.name, owner.oldName, ownerRenamed) == Renaming(old(owner.oldName), found, oldName)
        else
          && funcRenamed == Some((oldName, newName))
          && ownerRenamed == None
          && owner.name == old(owner.name) && owner.oldName == old(owner.oldName)
      ensures owner.content == old(owner.content)
    {
      var newNewName := FindName(Names(), newName, true, true);
      if newNewName != newName {
        ownerRenamed := owner.Rename(newNewName, oldName);
        funcRenamed := None;
      } else {
        funcRenamed := Some((oldName, newName));
        ownerRenamed := None;
      }
    }
  }

  /** varsWidget: the variable entries in the order they were added. */
  class VarsWidget {
    var widgets: seq<VarWidget>

    function Names(): (r: seq<string>)
      reads this, widgets
      ensures |r| == |widgets| && forall i :: 0 <= i < |r| ==> r[i] == widgets[i].name
    {
      seq(|widgets|, i requires 0 <= i < |widgets| reads this, widgets => widgets[i].name)
    }

    constructor ()
      ensures widgets == []
    {
      widgets := [];
    }

    /** addVariable: a new entry named after "newVar" with value 0, announced by varAdded. */
    method AddVariable() returns (added: (string, real))
      modifies this
      ensures |widgets| == |old(widgets)| + 1 && widgets[..|old(widgets)|] == old(widgets)
      ensures fresh(widgets[|widgets| - 1])
      ensures Names() == old(Names()) + [FindNameFixed(old(Names()), "newVar", false)]
      ensures widgets[|widgets| - 1].value == 0.0
      ensures added == (FindNameFixed(old(Names()), "newVar", false), 0.0)
      ensures |old(widgets)| < USHORT_MAX ==> added.0 !in old(Names())
    {
      if |widgets| < USHORT_MAX {
        FindNameFixedUnused(Names(), "newVar");
      }
      FindNameFixedIdentifier(Names(), "newVar", false);
      FixedIdentifierUnchanged(FindNameFixed(Names(), "newVar", false));
      var newName := FindName(Names(), "newVar", false, true);
      var w := new VarWidget(newName, 0.0);
      widgets := widgets + [w];
      added := (newName, 0.0);
    }

    /** changeName: as for functions, emitting varRenamed. */
    method ChangeName(oldName: string, newName: string, owner: VarWidget)
      returns (varRenamed: Option<(string, string)>, ownerRenamed: Option<(string, string)>)
      modifies owner
      ensures var found := FindNameFixed(old(Names()), newName, true);
        if found != newName then
          && varRenamed == None
          && RenameEffect(owner.name, owner.oldName, ownerRenamed) == Renaming(old(owner.oldName), found, oldName)
        else
          && varRenamed == Some((oldName, newName))
          && ownerRenamed == None
          && owner.name == old(owner.name) && owner.oldName == old(owner.oldName)
      ensures owner.value == old(owner.value)
    {
      var newNewName := FindName(Names(), newName, true, true);
      if newNewName != newName {
        ownerRenamed := owner.Rename(newNewName, oldName);
        varRenamed := None;
      } else {
        varRenamed := Some((oldName, newName));
        ownerRenamed := None;
      }
    }
  }
}
