/** The notification that `process` composes: the HTML list of admitted labels,
    the image tag, the token map, the body envelope and the attachment name. */
module Notification {
  import opened Wrappers
  import opened Numbers
  import opened Detection
  import opened OrderedDict
  import opened Annotation

  /** The annotated image attached to the email, under a file name. */
  datatype Attachment = Attachment(image: Picture, filename: string)

  /** One `send_email(subject, body_html, attachment_fp, attachment_name)` call. */
  datatype Email = Email(subject: string, body: string, attachment: Option<Attachment>)

  /** `"<li><b>{0}</b>: {1:.0f}%</li>".format(label, confidence)` */
  function ListItem(entry: (string, Percent)): string {
    "<li><b>" + entry.0 + "</b>: " + FormatFixed0(entry.1) + "%</li>"
  }

  /** The items for the entries, in dictionary order. */
  function ListItems(d: Dict<Percent>): string
  {
    if |d| == 0 then "" else ListItems(d[..|d| - 1]) + ListItem(d[|d| - 1])
  }

  /** The items of two consecutive parts of a dictionary are those of each part in turn. */
  lemma {:induction false} ListItemsAppend(a: Dict<Percent>, b: Dict<Percent>)
    ensures ListItems(a + b) == ListItems(a) + ListItems(b)
    decreases |b|
  {
    if |b| == 0 {
      assert a + b == a;
    } else {
      var b' := b[..|b| - 1];
      var last := b[|b| - 1];
      var item := ListItem(last);
      assert (a + b)[..|a + b| - 1] == a + b';
      assert (a + b)[|a + b| - 1] == last;
      assert ListItems(a + b) == ListItems(a + b') + item;
      assert ListItems(b) == ListItems(b') + item;
      ListItemsAppend(a, b');
      assert ListItems(a + b') + item == ListItems(a) + (ListItems(b') + item);
    }
  }

  /** One item per entry: a single entry yields exactly its own item. */
  lemma ListItemsSingle(e: (string, Percent))
    ensures ListItems([e]) == ListItem(e)
  {
    assert [e][..0] == [];
  }

  /** The list_html loop of `process`. */
  method ListHtml(detected: Dict<Percent>) returns (html: string)
    ensures html == "<ul>" + ListItems(detected) + "</ul>"
  {
    html := "<ul>";
    var i := 0;
    while i < |detected|
      invariant 0 <= i <= |detected|
      invariant html == "<ul>" + ListItems(detected[..i])
    {
      assert detected[..i + 1][..i] == detected[..i];
      html := html + "<li><b>" + detected[i].0 + "</b>: " + FormatFixed0(detected[i].1) + "%</li>";
      i := i + 1;
    }
    assert detected[..i] == detected;
    html := html + "</ul>";
  }

  /** `'<img src="cid:image01" width="{w}" height="{h}"/>'` */
  function ImageTag(image: Picture): string {
    "<img src=\"cid:image01\" width=\"" + IntToDecimal(image.width) + "\" height=\"" + IntToDecimal(image.height) + "\"/>"
  }

  /** The configured HTML fragment inside a minimal document. */
  function Envelope(fragment: string): string {
    "<html><body>" + fragment + "</body></html>"
  }

  /** The substitution tokens of a run. */
  function Tokens(camera: string, listHtml: string, imageHtml: string): (m: map<string, string>)
    ensures m.Keys == {"camera", "list", "image"}
  {
    map["camera" := camera, "list" := listHtml, "image" := imageHtml]
  }

  /** `os.path.basename`: the part after the last slash. */
  function Basename(path: string): (base: string)
    ensures '/' !in base
    ensures |base| <= |path| && path[|path| - |base|..] == base
    ensures |base| < |path| ==> path[|path| - |base| - 1] == '/'
  {
    if |path| == 0 then ""
    else if path[|path| - 1] == '/' then ""
    else
      var b := Basename(path[..|path| - 1]);
      assert path[..|path| - 1][|path| - 1 - |b|..] == b;
      assert path[|path| - 1 - |b|..] == b + [path[|path| - 1]];
      b + [path[|path| - 1]]
  }

  lemma {:induction false} BasenameOfPlainName(path: string)
    requires '/' !in path
    ensures Basename(path) == path
  {
    if |path| > 0 {
      var prefix := path[..|path| - 1];
      assert '/' !in prefix by {
        forall i | 0 <= i < |prefix| ensures prefix[i] != '/' {
          assert prefix[i] == path[i];
        }
      }
      BasenameOfPlainName(prefix);
      assert path == prefix + [path[|path| - 1]];
    }
  }

  /** `os.path.basename(camera_name + '_' + timestamp + ext)`. */
  function AttachmentName(camera: string, timestamp: string, ext: string): string {
    Basename(camera + "_" + timestamp + ext)
  }

  /** Without a slash in any part the attachment name is the plain concatenation. */
  lemma AttachmentNamePlain(camera: string, timestamp: string, ext: string)
    requires '/' !in camera && '/' !in timestamp && '/' !in ext
    ensures AttachmentName(camera, timestamp, ext) == camera + "_" + timestamp + ext
  {
    var p := camera + "_" + timestamp + ext;
    assert '/' !in p by {
      forall i | 0 <= i < |p| ensures p[i] != '/' {
        if i < |camera| { assert p[i] == camera[i]; }
        else if i == |camera| { assert p[i] == '_'; }
        else if i < |camera| + 1 + |timestamp| { assert p[i] == timestamp[i - |camera| - 1]; }
        else { assert p[i] == ext[i - |camera| - 1 - |timestamp|]; }
      }
    }
    BasenameOfPlainName(p);
  }

  /** The email `process_image` sends when a run fails. */
  function ErrorEmail(hostname: string): Email {
    Email("Image processing error",
          "<p>Failed to process image. Check logs for details.</p><p>Server: " + hostname + "</p>",
          None)
  }
}
