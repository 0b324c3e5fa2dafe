/** `LinuxCommands`: a list of shell commands with a category filter and a
    Copy button per command whose label turns to "Copied!" for the command
    last copied, until a timer clears it. */
module LinuxCommands {
  import opened Seqs

  datatype CommandCategory = System | Network | Security | DevOps

  datatype Command = Command(name: string, description: string, command: string, category: CommandCategory)

  /** The category's name, as in the buttons and `cmd.category`. */
  function CategoryName(c: CommandCategory): string
  {
    match c
    case System => "System"
    case Network => "Network"
    case Security => "Security"
    case DevOps => "DevOps"
  }

  const AllCategory: string := "All"

  /** The category buttons, in display order. */
  const CategoryButtons: seq<string> := ["All", "System", "Network", "Security", "DevOps"]

  /** The hard-coded `commands` list. */
  const CommandTable: seq<Command> := [
    Command("System Information", "Display system information and hardware details",
      "uname -a && lscpu && free -h && df -h", System),
    Command("Process Management", "View and manage system processes",
      "ps aux | grep [process_name]", System),
    Command("Network Configuration", "Configure network interfaces",
      "ip addr show && netstat -tulpn", Network),
    Command("Firewall Rules", "Manage firewall rules with UFW",
      "sudo ufw status && sudo ufw allow [port]", Security),
    Command("Docker Management", "Manage Docker containers and images",
      "docker ps -a && docker images", DevOps)
  ]

  /** `cmd => cmd.category === selectedCategory` */
  function InCategory(name: string): Command -> bool
  {
    (c: Command) => CategoryName(c.category) == name
  }

  /** `filteredCommands` for the selected category. */
  function Shown(cmds: seq<Command>, selectedCategory: string): (r: seq<Command>)
    ensures |r| <= |cmds|
    ensures forall c :: c in r ==> c in cmds
  {
    if selectedCategory == AllCategory then cmds else Filter(cmds, InCategory(selectedCategory))
  }

  /** 'All' shows every command; a category shows exactly its commands, each
      as often as it occurs, in order. */
  lemma ShownSpec(cmds: seq<Command>, k: CommandCategory)
    ensures Shown(cmds, AllCategory) == cmds
    ensures forall c :: c in Shown(cmds, CategoryName(k)) <==> c in cmds && c.category == k
    ensures forall c ::
      multiset(Shown(cmds, CategoryName(k)))[c] == if c.category == k then multiset(cmds)[c] else 0
    ensures IsSubsequence(Shown(cmds, CategoryName(k)), cmds)
  {
    forall c
      ensures c in Shown(cmds, CategoryName(k)) <==> c in cmds && c.category == k
      ensures multiset(Shown(cmds, CategoryName(k)))[c] == if c.category == k then multiset(cmds)[c] else 0
    {
      FilterMembership(cmds, InCategory(CategoryName(k)), c);
      FilterMultiset(cmds, InCategory(CategoryName(k)), c);
    }
    FilterIsSubsequence(cmds, InCategory(CategoryName(k)));
  }

  /** Every button after 'All' names one category, and every category has its
      button. */
  lemma CategoryButtonsCoverCategories()
    ensures CategoryButtons[0] == AllCategory && Distinct(CategoryButtons)
    ensures forall k: CommandCategory :: CategoryName(k) in CategoryButtons[1..]
    ensures forall i :: 1 <= i < |CategoryButtons| ==> exists k: CommandCategory :: CategoryName(k) == CategoryButtons[i]
  {
    assert CategoryName(System) == CategoryButtons[1];
    assert CategoryName(Network) == CategoryButtons[2];
    assert CategoryName(Security) == CategoryButtons[3];
    assert CategoryName(DevOps) == CategoryButtons[4];
  }

  /** The four category views split the list: their lengths add up to it. */
  lemma {:induction false} CategoriesPartition(cmds: seq<Command>)
    ensures |Shown(cmds, "System")| + |Shown(cmds, "Network")| + |Shown(cmds, "Security")|
      + |Shown(cmds, "DevOps")| == |Shown(cmds, AllCategory)|
  {
    if cmds != [] {
      CategoriesPartition(cmds[1..]);
    }
  }

  /** The label of a command's copy button. */
  function CopyLabel(copiedCommand: Option<string>, command: string): (text: string)
    ensures text == "Copied!" || text == "Copy"
    ensures text == "Copied!" <==> copiedCommand == Some(command)
  {
    if copiedCommand == Some(command) then "Copied!" else "Copy"
  }

  function Commands(cmds: seq<Command>): seq<string>
  {
    seq(|cmds|, i requires 0 <= i < |cmds| => cmds[i].command)
  }

  /** The command strings of the list are pairwise different. */
  lemma CommandTextsDistinct()
    ensures Distinct(Commands(CommandTable))
  {
  }

  /** Whatever was copied, at most one button of the list reads "Copied!",
      and only for the command copied. */
  lemma AtMostOneCopied(copiedCommand: Option<string>, i: int, j: int)
    requires 0 <= i < |CommandTable| && 0 <= j < |CommandTable|
    requires CopyLabel(copiedCommand, CommandTable[i].command) == "Copied!"
    requires CopyLabel(copiedCommand, CommandTable[j].command) == "Copied!"
    ensures i == j && copiedCommand == Some(CommandTable[i].command)
  {
    CommandTextsDistinct();
    assert Commands(CommandTable)[i] == CommandTable[i].command;
    assert Commands(CommandTable)[j] == CommandTable[j].command;
  }

  /** The component's state. */
  class CommandsView {
    var selectedCategory: string
    var copiedCommand: Option<string>

    constructor ()
      ensures selectedCategory == AllCategory && copiedCommand == None
    {
      selectedCategory := AllCategory;
      copiedCommand := None;
    }

    /** `copyToClipboard(command)`, without the clipboard write itself; it
        also schedules `ClearCopied` two seconds later. */
    method CopyToClipboard(command: string)
      modifies this
      ensures copiedCommand == Some(command) && selectedCategory == old(selectedCategory)
      ensures CopyLabel(copiedCommand, command) == "Copied!"
    {
      copiedCommand := Some(command);
    }

    /** The timer callback of `copyToClipboard`. */
    method ClearCopied()
      modifies this
      ensures copiedCommand == None && selectedCategory == old(selectedCategory)
      ensures forall c :: CopyLabel(copiedCommand, c) == "Copy"
    {
      copiedCommand := None;
    }

    /** A category button's `onClick`; the copied marker is left alone. */
    method SelectCategory(category: string)
      modifies this
      ensures selectedCategory == category && copiedCommand == old(copiedCommand)
    {
      selectedCategory := category;
    }
  }
}
