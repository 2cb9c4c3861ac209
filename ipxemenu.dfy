/** internal/handlers/ipxemenu.go: the iPXE boot menu listing every script. */
module IpxeMenu {
  import Text
  import Http
  import IpxeScript

  const MenuHeader := "#!ipxe\nmenu Choose target to boot\n"

  const FooterHead := "\nchoose target\necho -n Enter hostname or none:\nread hostname\nset baseurl "
  const FooterTail := "\n# Boot it as intended.\nchain ${target}\n"

  /** menuFooter with the base URL in place of its %s. */
  function MenuFooter(baseURL: string): string
  {
    FooterHead + baseURL + FooterTail
  }

  /** The label of a script: its name, with its environment in brackets when it has one. */
  function Desc(s: IpxeScript.Script): string
  {
    if |s.env| > 0 then s.name + " [" + s.env + "]" else s.name
  }

  /** The label starts with the script's name and shows its environment, if any, after " [". */
  lemma DescSpec(s: IpxeScript.Script)
    ensures s.env == "" ==> Desc(s) == s.name
    ensures s.env != "" ==> Text.HasPrefix(Desc(s), s.name) && Text.At(Desc(s), s.env, |s.name| + 2)
  {
    if s.env != "" {
      var r := Desc(s);
      assert r == s.name + (" [" + s.env + "]");
      Text.PrefixConcat(s.name, " [" + s.env + "]");
      assert r == (s.name + " [") + s.env + "]";
      Text.AtConcat(s.name + " [", s.env, "]");
    }
  }

  /** The menu entry of a script: its URL, then its label. */
  function ItemLine(s: IpxeScript.Script): string
  {
    "item " + s.path + s.name + " " + Desc(s) + "\n"
  }

  /** The menu entries of the scripts, in list order. */
  function ItemLines(scripts: seq<IpxeScript.Script>): string
  {
    if scripts == [] then ""
    else ItemLines(scripts[..|scripts| - 1]) + ItemLine(scripts[|scripts| - 1])
  }

  /** The whole menu. */
  function Menu(scripts: seq<IpxeScript.Script>, baseURL: string): string
  {
    MenuHeader + ItemLines(scripts) + MenuFooter(baseURL)
  }

  /** IPXEMenu: 500 "No Scripts Found" without scripts; otherwise the menu. */
  method IPXEMenu(scripts: seq<IpxeScript.Script>, baseURL: string) returns (resp: Http.Response)
    ensures scripts == [] ==> resp == Http.Error("No Scripts Found", Http.StatusInternalServerError)
    ensures scripts != [] ==> resp == Http.Reply(Http.StatusOK, Menu(scripts, baseURL))
  {
    if |scripts| == 0 {
      return Http.Error("No Scripts Found", Http.StatusInternalServerError);
    }
    var bootItemsBuffer := WriteItems(scripts);
    bootItemsBuffer := bootItemsBuffer + MenuFooter(baseURL);
    return Http.Reply(Http.StatusOK, bootItemsBuffer);
  }

  /** The header, then one entry per script in list order, written into the buffer. */
  method WriteItems(scripts: seq<IpxeScript.Script>) returns (bootItemsBuffer: string)
    ensures bootItemsBuffer == MenuHeader + ItemLines(scripts)
  {
    bootItemsBuffer := MenuHeader;
    var i := 0;
    while i < |scripts|
      invariant 0 <= i <= |scripts|
      invariant bootItemsBuffer == MenuHeader + ItemLines(scripts[..i])
    {
      var bootItem := ItemLine(scripts[i]);
      assert scripts[..i + 1][..i] == scripts[..i];
      assert ItemLines(scripts[..i + 1]) == ItemLines(scripts[..i]) + bootItem;
      Text.AppendAssoc(MenuHeader, ItemLines(scripts[..i]), bootItem);
      bootItemsBuffer := bootItemsBuffer + bootItem;
      i := i + 1;
    }
    assert scripts[..i] == scripts;
  }

  /** The entries of a concatenation are the entries of each part, in order. */
  lemma {:induction false} ItemLinesAppend(a: seq<IpxeScript.Script>, b: seq<IpxeScript.Script>)
    ensures ItemLines(a + b) == ItemLines(a) + ItemLines(b)
  {
    if b == [] {
      assert a + b == a;
    } else {
      var b0, x := b[..|b| - 1], b[|b| - 1];
      assert (a + b)[..|a + b| - 1] == a + b0;
      assert (a + b)[|a + b| - 1] == x;
      ItemLinesAppend(a, b0);
      var line := ItemLine(x);
      calc {
        ItemLines(a + b);
        ItemLines(a + b0) + line;
        (ItemLines(a) + ItemLines(b0)) + line;
        { Text.AppendAssoc(ItemLines(a), ItemLines(b0), line); }
        ItemLines(a) + (ItemLines(b0) + line);
      }
    }
  }

  /** Where the entry of the i-th script starts in the menu. */
  function ItemOffset(scripts: seq<IpxeScript.Script>, i: nat): nat
    requires i <= |scripts|
  {
    |MenuHeader| + |ItemLines(scripts[..i])|
  }

  /**
   * The menu starts with the header and ends with the footer; the entry of every script
   * appears at its offset, and the entries follow the order of the list without overlapping.
   */
  lemma MenuLayout(scripts: seq<IpxeScript.Script>, baseURL: string)
    ensures Text.HasPrefix(Menu(scripts, baseURL), MenuHeader)
    ensures Text.HasSuffix(Menu(scripts, baseURL), MenuFooter(baseURL))
    ensures forall i :: 0 <= i < |scripts| ==> Text.At(Menu(scripts, baseURL), ItemLine(scripts[i]), ItemOffset(scripts, i))
    ensures forall i, j :: 0 <= i < j < |scripts| ==>
      ItemOffset(scripts, i) + |ItemLine(scripts[i])| <= ItemOffset(scripts, j)
  {
    MenuEnds(scripts, baseURL);
    forall i | 0 <= i < |scripts| ensures Text.At(Menu(scripts, baseURL), ItemLine(scripts[i]), ItemOffset(scripts, i)) {
      ItemPlaced(scripts, baseURL, i);
    }
    forall i, j | 0 <= i < j < |scripts| ensures ItemOffset(scripts, i) + |ItemLine(scripts[i])| <= ItemOffset(scripts, j) {
      OffsetsIncrease(scripts, i, j);
    }
  }

  lemma MenuEnds(scripts: seq<IpxeScript.Script>, baseURL: string)
    ensures Text.HasPrefix(Menu(scripts, baseURL), MenuHeader)
    ensures Text.HasSuffix(Menu(scripts, baseURL), MenuFooter(baseURL))
  {
    var lines, footer := ItemLines(scripts), MenuFooter(baseURL);
    Text.Regroup(MenuHeader, "", lines, "", footer);
    Text.PrefixConcat(MenuHeader, lines + footer);
    var body := MenuHeader + lines;
    assert (body + footer)[|body|..] == footer;
  }

  lemma OffsetsIncrease(scripts: seq<IpxeScript.Script>, i: nat, j: nat)
    requires i < j <= |scripts|
    ensures ItemOffset(scripts, i) + |ItemLine(scripts[i])| <= ItemOffset(scripts, j)
  {
    assert scripts[..j] == (scripts[..i] + [scripts[i]]) + scripts[i + 1..j];
    ItemLinesAppend(scripts[..i] + [scripts[i]], scripts[i + 1..j]);
    ItemLinesAppend(scripts[..i], [scripts[i]]);
    assert [scripts[i]][..0] == [];
    assert ItemLines([scripts[i]]) == ItemLine(scripts[i]);
  }

  lemma ItemPlaced(scripts: seq<IpxeScript.Script>, baseURL: string, i: nat)
    requires i < |scripts|
    ensures Text.At(Menu(scripts, baseURL), ItemLine(scripts[i]), ItemOffset(scripts, i))
  {
    var pre, x, post := scripts[..i], scripts[i], scripts[i + 1..];
    assert scripts == (pre + [x]) + post;
    ItemLinesAppend(pre + [x], post);
    ItemLinesAppend(pre, [x]);
    assert [x][..0] == [];
    var item := ItemLine(x);
    assert ItemLines([x]) == item;
    var footer := MenuFooter(baseURL);
    Text.Regroup(MenuHeader, ItemLines(pre), item, ItemLines(post), footer);
    Text.AtConcat(MenuHeader + ItemLines(pre), item, ItemLines(post) + footer);
  }
}
