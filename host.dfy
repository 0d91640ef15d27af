/** The WordPress functions the converter calls but does not define.
    Their behaviour is not modelled: they are passed in as values. */
module Host {
  import opened Text

  datatype WordPress = WordPress(
    /** esc_html() */
    escHtml: string -> string,
    /** esc_url(), or None when function_exists('esc_url') is false */
    escUrl: Option<string -> string>,
    /** wp_kses_post() */
    ksesPost: string -> string)
}
