/** What a page's `getServerSideProps` can return. */
module NextServer {

  datatype PageResult<P> = Redirect(destination: string, permanent: bool) | Props(props: P)
}
